/** The tables behind friends and private chats (_sql/table.sql, with the columns descs and bakname
    that the statements of mysql_dao.cc use), and what one committed AddFriend amounts to. */
module ChatDb {
  import opened Wrappers

  const MAX_RETRY: nat := 3

  // server error codes
  const DUP_ENTRY: int := 1062
  const LOCK_TIMEOUT: int := 1205
  type Uid = nat

  type Pair = (Uid, Uid)

  datatype Apply = Apply(status: int, descs: string, bakname: string)

  datatype ThreadType = PrivateThread | GroupThread

  datatype ChatMsg = ChatMsg(thread: nat, sender: Uid, receiver: Uid, content: string, status: int)

  /** friend and friend_apply are keyed by their unique user pairs, the others by primary key. */
  datatype Db = Db(
    friend: map<Pair, string>,     // (self_id, friend_id) -> bakname
    apply: map<Pair, Apply>,       // (from_uid, to_uid)
    threads: map<nat, ThreadType>, // chat_thread
    priv: map<nat, Pair>,          // private_chat: thread_id -> (user1_id, user2_id)
    messages: map<nat, ChatMsg>)   // chat_message

  /** One AddFriendmsg of chat_datas. */
  datatype Report = Report(sender: Uid, msgId: nat, content: string, thread: nat)

  const NO_ROWS := Db(map[], map[], map[], map[], map[])

  function Normal(a: Uid, b: Uid): Pair { if a <= b then (a, b) else (b, a) }

  /** INSERT IGNORE. */
  function InsertIgnore<K, V>(m: map<K, V>, k: K, v: V): map<K, V> {
    if k in m then m else m[k := v]
  }

  /** An application from `to` to `from` waits for `from` to accept it. */
  predicate Waiting(db: Db, from: Uid, to: Uid) {
    (to, from) in db.apply && db.apply[(to, from)].status == 0
  }

  ghost predicate PairTaken(db: Db, p: Pair) {
    exists t :: t in db.priv && db.priv[t] == p
  }

  /** The rows a committed AddFriend leaves: the application accepted, both friend rows, a private
      thread, its normalised private_chat row, and the non-empty messages. */
  function FriendsMade(db: Db, from: Uid, to: Uid, bakname: string, desc: string,
                       thread: nat, first: nat, second: nat): Db
    requires (to, from) in db.apply
  {
    var ap := db.apply[(to, from)];
    Db(InsertIgnore(InsertIgnore(db.friend, (from, to), bakname), (to, from), ap.bakname),
       db.apply[(to, from) := Apply(1, ap.descs, ap.bakname)],
       db.threads[thread := PrivateThread],
       db.priv[thread := Normal(from, to)],
       db.messages + Greetings(from, to, ap.descs, desc, thread, first, second))
  }

  function Greetings(from: Uid, to: Uid, descs: string, desc: string, thread: nat, first: nat, second: nat): map<nat, ChatMsg> {
    (if descs == "" then map[] else map[first := ChatMsg(thread, to, from, descs, 0)])
    + (if desc == "" then map[] else map[second := ChatMsg(thread, from, to, desc, 0)])
  }

  /** Two tables agree but for one key. */
  ghost predicate SameBut<K, V>(before: map<K, V>, after: map<K, V>, keys: set<K>) {
    before.Keys <= after.Keys <= before.Keys + keys && forall k :: k in before && k !in keys ==> after[k] == before[k]
  }

  /** The accepting side's name for the applicant is the one given now, the applicant's for the other the
      one in the application; names that are already there stay. */
  lemma FriendsMadeNames(db: Db, from: Uid, to: Uid, bakname: string, desc: string, thread: nat, first: nat, second: nat)
    requires Waiting(db, from, to)
    ensures var d := FriendsMade(db, from, to, bakname, desc, thread, first, second);
            && (from, to) in d.friend && (to, from) in d.friend && SameBut(db.friend, d.friend, {(from, to), (to, from)})
            && (forall k :: k in db.friend ==> d.friend[k] == db.friend[k])
            && ((from, to) !in db.friend ==> d.friend[(from, to)] == bakname)
            && ((to, from) !in db.friend && from != to ==> d.friend[(to, from)] == db.apply[(to, from)].bakname)
  {
  }

  /** The application is accepted and otherwise as it was; the new chat is that of the two users, the
      smaller id first. */
  lemma FriendsMadeRows(db: Db, from: Uid, to: Uid, bakname: string, desc: string, thread: nat, first: nat, second: nat)
    requires Waiting(db, from, to)
    ensures var d := FriendsMade(db, from, to, bakname, desc, thread, first, second);
            && SameBut(db.apply, d.apply, {(to, from)}) && d.apply.Keys == db.apply.Keys && d.apply[(to, from)].status == 1
            && d.apply[(to, from)].descs == db.apply[(to, from)].descs
            && d.apply[(to, from)].bakname == db.apply[(to, from)].bakname
            && SameBut(db.threads, d.threads, {thread}) && thread in d.threads && d.threads[thread] == PrivateThread
            && SameBut(db.priv, d.priv, {thread}) && thread in d.priv
            && d.priv[thread].0 <= d.priv[thread].1 && {d.priv[thread].0, d.priv[thread].1} == {from, to}
  {
  }

  /** The applicant's text goes to the accepting side and the other way round; empty ones are not sent. */
  lemma GreetingsAre(from: Uid, to: Uid, descs: string, desc: string, thread: nat, first: nat, second: nat)
    requires first != second
    ensures var g := Greetings(from, to, descs, desc, thread, first, second);
            && (forall m :: m in g <==> (m == first && descs != "") || (m == second && desc != ""))
            && (descs != "" ==> g[first] == ChatMsg(thread, to, from, descs, 0))
            && (desc != "" ==> g[second] == ChatMsg(thread, from, to, desc, 0))
  {
  }

  lemma FriendsMadeMessages(db: Db, from: Uid, to: Uid, bakname: string, desc: string, thread: nat, first: nat, second: nat)
    requires Waiting(db, from, to) && first != second
    ensures var d, descs := FriendsMade(db, from, to, bakname, desc, thread, first, second), db.apply[(to, from)].descs;
            && SameBut(db.messages, d.messages, {first, second})
            && (descs != "" ==> Get(d.messages, first) == Present(ChatMsg(thread, to, from, descs, 0)))
            && (desc != "" ==> Get(d.messages, second) == Present(ChatMsg(thread, from, to, desc, 0)))
            && (descs == "" ==> Get(d.messages, first) == Get(db.messages, first))
            && (desc == "" ==> Get(d.messages, second) == Get(db.messages, second))
  {
    GreetingsAre(from, to, db.apply[(to, from)].descs, desc, thread, first, second);
  }

  // ----- what every committed state keeps -----

  ghost predicate FriendSymmetric(db: Db) {
    forall a, b :: (a, b) in db.friend <==> (b, a) in db.friend
  }

  ghost predicate AcceptedAreFriends(db: Db) {
    forall k :: k in db.apply ==>
      (db.apply[k].status == 0 || db.apply[k].status == 1)
      && (db.apply[k].status == 1 ==> k in db.friend && (k.1, k.0) in db.friend)
  }

  ghost predicate OneChatPerPair(db: Db) {
    && (forall t :: t in db.priv ==> db.priv[t].0 <= db.priv[t].1)
    && (forall t, u :: t in db.priv && u in db.priv && db.priv[t] == db.priv[u] ==> t == u)
  }

  /** Private threads and private_chat rows come in pairs: no orphan on either side. */
  ghost predicate ThreadsMatchChats(db: Db) {
    forall t :: t in db.priv <==> t in db.threads && db.threads[t] == PrivateThread
  }

  ghost predicate Sound(db: Db) {
    FriendSymmetric(db) && AcceptedAreFriends(db) && OneChatPerPair(db) && ThreadsMatchChats(db)
  }

  /** AUTO_INCREMENT is ahead of every id in use. */
  ghost predicate CountersAhead(db: Db, nextThread: nat, nextMsg: nat) {
    (forall t :: t in db.threads ==> t < nextThread) && (forall m :: m in db.messages ==> m < nextMsg)
  }

  lemma FriendsMadeKeepsSound(db: Db, from: Uid, to: Uid, bakname: string, desc: string,
                              thread: nat, first: nat, second: nat)
    requires Sound(db) && Waiting(db, from, to) && thread !in db.threads && !PairTaken(db, Normal(from, to))
    ensures Sound(FriendsMade(db, from, to, bakname, desc, thread, first, second))
  {
    var d := FriendsMade(db, from, to, bakname, desc, thread, first, second);
    assert d.friend.Keys == db.friend.Keys + {(from, to), (to, from)};
    assert FriendSymmetric(d);
    assert AcceptedAreFriends(d);
    forall t, u | t in d.priv && u in d.priv && d.priv[t] == d.priv[u] ensures t == u {
    }
  }

  /** The rows of a committed CreatePrivateChat. */
  function ChatMade(db: Db, thread: nat, p: Pair): Db {
    Db(db.friend, db.apply, db.threads[thread := PrivateThread], db.priv[thread := p], db.messages)
  }

  lemma ChatMadeKeepsSound(db: Db, thread: nat, p: Pair)
    requires Sound(db) && thread !in db.threads && !PairTaken(db, p) && p.0 <= p.1
    ensures Sound(ChatMade(db, thread, p))
  {
    var d := ChatMade(db, thread, p);
    forall a, b | a in d.priv && b in d.priv && d.priv[a] == d.priv[b] ensures a == b {
    }
  }

  /** AddFriendApply: INSERT ... ON DUPLICATE KEY UPDATE descs, bakname. */
  function ApplyRow(db: Db, k: Pair, descs: string, bakname: string): Db {
    db.(apply := db.apply[k := Apply(if k in db.apply then db.apply[k].status else 0, descs, bakname)])
  }

  /** Text and name are those sent last; a new application waits, an old one keeps its status. */
  lemma ApplyRowIs(db: Db, k: Pair, descs: string, bakname: string)
    ensures var d := ApplyRow(db, k, descs, bakname);
            && SameBut(db.apply, d.apply, {k}) && k in d.apply && d.apply[k].descs == descs && d.apply[k].bakname == bakname
            && d.apply[k].status == (if k in db.apply then db.apply[k].status else 0)
            && d.friend == db.friend && d.threads == db.threads && d.priv == db.priv && d.messages == db.messages
  {
  }

  lemma ApplyRowKeepsSound(db: Db, k: Pair, descs: string, bakname: string)
    requires Sound(db)
    ensures Sound(ApplyRow(db, k, descs, bakname))
  {
  }
}
