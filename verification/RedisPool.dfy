/** RedisConnPool (Common/src/redis_mgr.cc): a queue of contexts, borrowers, and the thread that pings
    idle contexts and replaces the broken ones. Each mutex-protected section and each command sent to
    Redis is one step; borrowers and the checker interleave freely. The pool is not yet closed. */
module RedisPool {

  type Ctx = nat

  /** Where the checker stands in checkThread: `i` of `size` contexts are done. */
  datatype Pc =
    | Asleep
    | Scan(i: nat, size: nat)             // the loop head
    | Ping(i: nat, size: nat, ctx: Ctx)   // holds a context taken from the queue
    | Heal(i: nat, size: nat)             // the head of the reconnect loop
    | Settle(i: nat, size: nat)           // a new context is queued, _fail_count not yet decremented

  /** `next` names contexts: redisConnect returns a new one each time. */
  datatype State = State(queue: seq<Ctx>, lent: set<Ctx>, fails: int, pc: Pc, next: Ctx)

  datatype Event =
    | Borrow            // getConnection takes the front
    | Return(ctx: Ctx)  // returnConnection by a borrower
    | Wake              // checkThread starts: it reads the queue length
    | Next              // the loop test and, if it passes, the pop
    | PingOk
    | PingFails         // redisFree, ++_fail_count, continue
    | PingThrows        // the catch block: redisFree, ++_fail_count, and on to the reconnect loop
    | Reconnected       // reconnect pushed a new context
    | Counted           // --_fail_count
    | ReconnectFails    // no connection, or AUTH refused: leave the reconnect loop
    | Healed            // the reconnect loop ends with _fail_count at 0

  predicate Enabled(st: State, e: Event) {
    match e
    case Borrow => st.queue != []
    case Return(c) => c in st.lent
    case Wake => st.pc.Asleep?
    case Next => st.pc.Scan?
    case PingOk | PingFails | PingThrows => st.pc.Ping?
    case Reconnected | ReconnectFails => st.pc.Heal? && st.fails > 0
    case Counted => st.pc.Settle?
    case Healed => st.pc.Heal? && st.fails <= 0
  }

  function Step(st: State, e: Event): State
    requires Enabled(st, e)
  {
    match e
    case Borrow => st.(queue := st.queue[1..], lent := st.lent + {st.queue[0]})
    case Return(c) => st.(queue := st.queue + [c], lent := st.lent - {c})
    case Wake => st.(pc := Scan(0, |st.queue|))
    case Next =>
      if st.pc.i < st.pc.size && st.queue != []
      then st.(queue := st.queue[1..], pc := Ping(st.pc.i, st.pc.size, st.queue[0]))
      else st.(pc := Asleep)
    case PingOk => st.(queue := st.queue + [st.pc.ctx], pc := Heal(st.pc.i, st.pc.size))
    case PingFails => st.(fails := st.fails + 1, pc := Scan(st.pc.i + 1, st.pc.size))
    case PingThrows => st.(fails := st.fails + 1, pc := Heal(st.pc.i, st.pc.size))
    case Reconnected => st.(queue := st.queue + [st.next], next := st.next + 1, pc := Settle(st.pc.i, st.pc.size))
    case Counted => st.(fails := st.fails - 1, pc := Heal(st.pc.i, st.pc.size))
    case ReconnectFails | Healed => st.(pc := Scan(st.pc.i + 1, st.pc.size))
  }

  /** The pool when its constructor has connected n contexts. */
  function Started(n: nat): State {
    State(seq(n, i => i), {}, 0, Asleep, n)
  }

  /** Every event of the list is possible when its turn comes. */
  predicate Legal(st: State, es: seq<Event>) {
    es == [] || (Legal(st, es[..|es| - 1]) && Enabled(After(st, es[..|es| - 1]), es[|es| - 1]))
  }

  function After(st: State, es: seq<Event>): State {
    if es == [] then st
    else
      var prev := After(st, es[..|es| - 1]);
      if Enabled(prev, es[|es| - 1]) then Step(prev, es[|es| - 1]) else prev
  }

  lemma Extend(st: State, es: seq<Event>, e: Event)
    requires Legal(st, es) && Enabled(After(st, es), e)
    ensures Legal(st, es + [e]) && After(st, es + [e]) == Step(After(st, es), e)
  {
    assert (es + [e])[..|es|] == es;
  }

  lemma {:induction false} Join(st: State, a: seq<Event>, b: seq<Event>)
    requires Legal(st, a) && Legal(After(st, a), b)
    ensures Legal(st, a + b) && After(st, a + b) == After(After(st, a), b)
  {
    if b == [] {
      assert a + b == a;
    } else {
      Join(st, a, b[..|b| - 1]);
      Extend(st, a + b[..|b| - 1], b[|b| - 1]);
      assert a + b == a + b[..|b| - 1] + [b[|b| - 1]];
    }
  }

  /** R(k, st): st is reached after k passes of the checker have begun. */
  ghost predicate Counts(R: (nat, State) -> bool) {
    forall k: nat, st, e :: R(k, st) && Enabled(st, e) ==> R(if e.Wake? then k + 1 else k, Step(st, e))
  }

  /** The passes that begin in the list. */
  function Passes(es: seq<Event>): nat {
    if es == [] then 0 else Passes(es[..|es| - 1]) + if es[|es| - 1].Wake? then 1 else 0
  }

  /** Every such R has every state that can be reached, with the passes begun on the way. */
  lemma {:induction false} CountsHoldsAfter(R: (nat, State) -> bool, k: nat, st: State, es: seq<Event>)
    requires Counts(R) && R(k, st) && Legal(st, es)
    ensures R(k + Passes(es), After(st, es))
  {
    if es != [] {
      CountsHoldsAfter(R, k, st, es[..|es| - 1]);
    }
  }

  ghost predicate Reached(start: State, k: nat, st: State) {
    exists es :: Legal(start, es) && After(start, es) == st && Passes(es) == k
  }

  /** And the least one is what can be reached. */
  lemma ReachedCounts(start: State)
    ensures Counts((k: nat, st) => Reached(start, k, st)) && Reached(start, 0, start)
  {
    assert Legal(start, []) && After(start, []) == start && Passes([]) == 0;
    forall k: nat, st, e | Reached(start, k, st) && Enabled(st, e)
      ensures Reached(start, if e.Wake? then k + 1 else k, Step(st, e))
    {
      var es :| Legal(start, es) && After(start, es) == st && Passes(es) == k;
      Extend(start, es, e);
      assert (es + [e])[..|es|] == es;
    }
  }

  // ----- conservation and ownership -----

  predicate Distinct(s: seq<Ctx>) {
    forall i, j :: 0 <= i < j < |s| ==> s[i] != s[j]
  }

  /** No context is in two places, and none is one that redisConnect could still return. */
  predicate OneOwner(st: State) {
    && Distinct(st.queue)
    && (forall c :: c in st.queue ==> c !in st.lent && c < st.next)
    && (forall c :: c in st.lent ==> c < st.next)
    && (st.pc.Ping? ==> st.pc.ctx !in st.queue && st.pc.ctx !in st.lent && st.pc.ctx < st.next)
  }

  /** Queued, lent and held contexts, plus the connections owed. */
  function Total(st: State): int {
    |st.queue| + |st.lent| + (if st.pc.Ping? then 1 else 0) + st.fails - (if st.pc.Settle? then 1 else 0)
  }

  predicate Inv(n: nat, st: State) {
    OneOwner(st) && Total(st) == n && st.fails >= (if st.pc.Settle? then 1 else 0)
  }

  lemma PopKeepsDistinct(s: seq<Ctx>)
    requires Distinct(s) && s != []
    ensures Distinct(s[1..]) && forall c :: c in s <==> c == s[0] || c in s[1..]
    ensures s[0] !in s[1..]
  {
    assert s == [s[0]] + s[1..];
  }

  lemma PushKeepsDistinct(s: seq<Ctx>, c: Ctx)
    requires Distinct(s) && c !in s
    ensures Distinct(s + [c])
  {
  }

  lemma StepKeepsOwners(st: State, e: Event)
    requires OneOwner(st) && Enabled(st, e)
    ensures OneOwner(Step(st, e))
  {
    match e
    case Borrow => PopKeepsDistinct(st.queue);
    case Next => if st.queue != [] { PopKeepsDistinct(st.queue); }
    case Return(c) => PushKeepsDistinct(st.queue, c);
    case PingOk => PushKeepsDistinct(st.queue, st.pc.ctx);
    case Reconnected => PushKeepsDistinct(st.queue, st.next);
    case _ =>
  }

  lemma StepKeepsTotal(st: State, e: Event)
    requires OneOwner(st) && Enabled(st, e)
    ensures Total(Step(st, e)) == Total(st)
  {
    match e
    case Borrow => assert st.queue[0] in st.queue;
    case _ =>
  }

  lemma StepKeepsInv(n: nat, st: State, e: Event)
    requires Inv(n, st) && Enabled(st, e)
    ensures Inv(n, Step(st, e))
  {
    StepKeepsOwners(st, e);
    StepKeepsTotal(st, e);
  }

  /** In every interleaving of borrowers, returns, failing pings and reconnects: the contexts queued,
      lent and held by the checker plus _fail_count are as many as the pool started with, a reconnect
      push and its decrement counting as one, and no context is ever in two of these places. */
  lemma {:induction false} PoolIsConserved(n: nat, es: seq<Event>)
    requires Legal(Started(n), es)
    ensures Inv(n, After(Started(n), es))
  {
    EventsKeepInv(n, Started(n), es);
  }

  lemma {:induction false} EventsKeepInv(n: nat, st: State, es: seq<Event>)
    requires Inv(n, st) && Legal(st, es)
    ensures Inv(n, After(st, es))
  {
    if es != [] {
      EventsKeepInv(n, st, es[..|es| - 1]);
      StepKeepsInv(n, After(st, es[..|es| - 1]), es[|es| - 1]);
    }
  }

  // ----- when the pool heals -----

  /** Every context is broken and the checker is past the point where it reconnects. */
  predicate Dead(st: State) {
    st.queue == [] && st.lent == {} && (st.pc.Asleep? || st.pc.Scan?)
  }

  lemma {:induction false} DeadStaysDead(st: State, es: seq<Event>)
    requires Dead(st) && Legal(st, es)
    ensures Dead(After(st, es)) && After(st, es).fails == st.fails
  {
    if es != [] {
      DeadStaysDead(st, es[..|es| - 1]);
    }
  }

  /** Two events in a row. */
  lemma Two(st: State, e: Event, f: Event)
    requires Enabled(st, e) && Enabled(Step(st, e), f)
    ensures Legal(st, [e, f]) && After(st, [e, f]) == Step(Step(st, e), f)
  {
    Extend(st, [], e);
    Extend(st, [e], f);
    assert [] + [e] == [e] && [e] + [f] == [e, f];
  }

  lemma One(st: State, e: Event)
    requires Enabled(st, e)
    ensures Legal(st, [e]) && After(st, [e]) == Step(st, e)
  {
    Extend(st, [], e);
    assert [] + [e] == [e];
  }

  /** A checker in its reconnect loop repays everything if Redis answers. */
  lemma {:induction false} RepayAll(st: State) returns (es: seq<Event>)
    requires st.pc.Heal? && st.fails >= 0
    ensures Legal(st, es) && After(st, es).fails == 0
    decreases st.fails
  {
    es := [];
    if st.fails > 0 {
      Two(st, Reconnected, Counted);
      var more := RepayAll(After(st, [Reconnected, Counted]));
      Join(st, [Reconnected, Counted], more);
      es := [Reconnected, Counted] + more;
    }
  }

  lemma WakeToHeal(st: State) returns (es: seq<Event>)
    requires st.pc.Asleep? && st.queue != []
    ensures Legal(st, es) && After(st, es).pc.Heal? && After(st, es).fails == st.fails
  {
    Two(st, Wake, Next);
    var pinging := After(st, [Wake, Next]);
    One(pinging, PingOk);
    Join(st, [Wake, Next], [PingOk]);
    es := [Wake, Next] + [PingOk];
  }

  lemma SleeperToHeal(st: State) returns (es: seq<Event>)
    requires st.pc.Asleep? && !Dead(st)
    ensures Legal(st, es) && After(st, es).pc.Heal? && After(st, es).fails == st.fails
  {
    if st.queue != [] {
      es := WakeToHeal(st);
    } else {
      var c :| c in st.lent;
      One(st, Return(c));
      es := WakeToHeal(Step(st, Return(c)));
      Join(st, [Return(c)], es);
      es := [Return(c)] + es;
    }
  }

  /** While some context is left there is a way on into the reconnect loop. */
  lemma ReachesHeal(st: State) returns (es: seq<Event>)
    requires !Dead(st) && st.fails >= (if st.pc.Settle? then 1 else 0)
    ensures Legal(st, es) && After(st, es).pc.Heal? && After(st, es).fails >= 0
  {
    match st.pc
    case Asleep => es := SleeperToHeal(st);
    case Scan(_, _) =>
      One(st, Next);
      var next := Step(st, Next);
      var more: seq<Event>;
      if next.pc.Ping? {
        One(next, PingOk);
        more := [PingOk];
      } else {
        more := SleeperToHeal(next);
      }
      Join(st, [Next], more);
      es := [Next] + more;
    case Ping(_, _, _) =>
      One(st, PingOk);
      es := [PingOk];
    case Heal(_, _) => es := [];
    case Settle(_, _) =>
      One(st, Counted);
      es := [Counted];
  }

  ghost predicate CanHeal(st: State) {
    exists es :: Legal(st, es) && After(st, es).fails == 0
  }

  /** The checker reconnects only after a ping that succeeded. So a debt can be repaid exactly while one
      context is left, queued, lent or in the checker's hands: once all have failed, no course of
      events, not even Redis coming back, ever brings a connection. */
  lemma HealsIff(n: nat, st: State)
    requires Inv(n, st)
    ensures CanHeal(st) <==> st.fails == 0 || !Dead(st)
  {
    if st.fails == 0 {
      assert Legal(st, []);
    } else if Dead(st) {
      forall es | Legal(st, es) ensures After(st, es).fails != 0 {
        DeadStaysDead(st, es);
      }
    } else {
      var a := ReachesHeal(st);
      var b := RepayAll(After(st, a));
      Join(st, a, b);
      assert Legal(st, a + b);
    }
  }

  lemma {:induction false} RestFails(st: State) returns (es: seq<Event>)
    requires st.pc.Scan? && st.lent == {} && st.pc.size == st.pc.i + |st.queue|
    ensures Legal(st, es) && Dead(After(st, es)) && After(st, es).fails == st.fails + |st.queue|
    decreases |st.queue|
  {
    es := [];
    if st.queue != [] {
      Two(st, Next, PingFails);
      var more := RestFails(After(st, [Next, PingFails]));
      Join(st, [Next, PingFails], more);
      es := [Next, PingFails] + more;
    }
  }

  /** Such a state is reached from every start: Redis is away for one pass of the checker while no
      context is lent. With n connections owed, the pool stays empty for good. */
  lemma OneBadPassIsFinal(n: nat) returns (es: seq<Event>)
    requires n >= 1
    ensures Legal(Started(n), es)
    ensures var st := After(Started(n), es); st.fails == n && !CanHeal(st)
  {
    var st := Started(n);
    One(st, Wake);
    var more := RestFails(Step(st, Wake));
    Join(st, [Wake], more);
    es := [Wake] + more;
    PoolIsConserved(n, es);
    HealsIff(n, After(st, es));
  }

  // ----- the class -----

  /** The environment's part of one checkThread pass is drawn arbitrarily: which pings and reconnects
      succeed, and what borrowers do in between. `lent` records who has which context. */
  class RedisConnPool {
    var conns: seq<Ctx>
    var failCount: int
    var next: Ctx
    var lent: set<Ctx>

    ghost function Now(pc: Pc): State
      reads this
    {
      State(conns, lent, failCount, pc, next)
    }

    /** Only the contexts that connect and authenticate make it into the pool. */
    constructor (connects: seq<bool>)
      ensures Now(Asleep) == Started(|Successes(connects)|)
    {
      var queue: seq<Ctx>, named: nat := [], 0;
      for i := 0 to |connects|
        invariant named == |Successes(connects[..i])| && queue == seq(named, k => k)
      {
        assert connects[..i + 1][..i] == connects[..i];
        if connects[i] {
          queue, named := queue + [named], named + 1;
        }
      }
      assert connects[..|connects|] == connects;
      conns, failCount, next, lent := queue, 0, named, {};
    }

    /** The waiting is over: the queue is not empty. */
    method GetConnection() returns (c: Ctx)
      requires conns != []
      modifies this`conns, this`lent
      ensures forall pc :: Now(pc) == Step(old(Now(pc)), Borrow)
      ensures c == old(conns[0])
    {
      c := conns[0];
      conns := conns[1..];
      lent := lent + {c};
    }

    method ReturnConnection(c: Ctx)
      requires c in lent
      modifies this`conns, this`lent
      ensures forall pc :: Now(pc) == Step(old(Now(pc)), Return(c))
    {
      conns := conns + [c];
      lent := lent - {c};
    }

    /** `up`: Redis accepts the connection and the password. What the caller's reconnect loop has done
        then is one step of the machine. */
    method Reconnect(up: bool) returns (ok: bool)
      modifies this`conns, this`next
      ensures ok == up
      ensures conns == (if up then old(conns) + [old(next)] else old(conns))
      ensures next == (if up then old(next) + 1 else old(next))
      ensures failCount > 0 ==> forall i: nat, size: nat ::
                Now(if ok then Settle(i, size) else Scan(i + 1, size))
                == Step(old(Now(Heal(i, size))), if ok then Reconnected else ReconnectFails)
    {
      if !up { return false; }
      conns, next := conns + [next], next + 1;
      return true;
    }

    // In the methods below R is any set of states, each with a number of passes, that respects the steps:
    // the methods run the machine, and the number says how many passes they have begun.

    /** While the checker is outside the mutex other threads borrow and return. */
    method OthersRun(ghost R: (nat, State) -> bool, ghost k: nat, ghost pc: Pc)
      requires Counts(R) && R(k, Now(pc))
      modifies this`conns, this`lent
      ensures R(k, Now(pc))
    {
      var rounds: nat := *;
      while rounds > 0
        invariant R(k, Now(pc))
      {
        var borrow: bool := *;
        if borrow && conns != [] {
          var _ := GetConnection();
        } else if lent != {} {
          var c :| c in lent;
          ReturnConnection(c);
        }
        rounds := rounds - 1;
      }
    }

    /** The reconnect loop at the end of one iteration. */
    method Repay(ghost R: (nat, State) -> bool, ghost k: nat, ghost i: nat, ghost size: nat)
      requires Counts(R) && R(k, Now(Heal(i, size)))
      modifies this
      ensures R(k, Now(Scan(i + 1, size)))
    {
      while failCount > 0
        invariant R(k, Now(Heal(i, size)))
        decreases failCount
      {
        var up: bool := *;
        ghost var st := Now(Heal(i, size));
        var res := Reconnect(up);
        if res {
          assert Now(Settle(i, size)) == Step(st, Reconnected);
          OthersRun(R, k, Settle(i, size));
          st := Now(Settle(i, size));
          failCount := failCount - 1;
          assert Now(Heal(i, size)) == Step(st, Counted);
        } else {
          assert Now(Scan(i + 1, size)) == Step(st, ReconnectFails);
          return;
        }
      }
      assert Now(Scan(i + 1, size)) == Step(Now(Heal(i, size)), Healed);
    }

    /** The loop body for a context taken from the queue. */
    method PingOne(ghost R: (nat, State) -> bool, ghost k: nat, ctx: Ctx, ghost i: nat, ghost size: nat)
      requires Counts(R) && R(k, Now(Ping(i, size, ctx)))
      modifies this
      ensures R(k, Now(Scan(i + 1, size)))
    {
      OthersRun(R, k, Ping(i, size, ctx));
      ghost var st := Now(Ping(i, size, ctx));
      var reply: bool, throws: bool := *, *;
      if throws {
        failCount := failCount + 1;
        assert Now(Heal(i, size)) == Step(st, PingThrows);
        Repay(R, k, i, size);
      } else if !reply {
        failCount := failCount + 1;
        assert Now(Scan(i + 1, size)) == Step(st, PingFails);
      } else {
        conns := conns + [ctx];
        assert Now(Heal(i, size)) == Step(st, PingOk);
        Repay(R, k, i, size);
      }
    }

    /** checkThread, with other threads at work whenever the mutex is free: one whole pass. */
    method CheckThread(ghost R: (nat, State) -> bool, ghost k: nat)
      requires Counts(R) && R(k, Now(Asleep))
      modifies this
      ensures R(k + 1, Now(Asleep))
    {
      var poolSize := |conns|;
      assert Now(Scan(0, poolSize)) == Step(Now(Asleep), Wake);
      var i := 0;
      while i < poolSize
        invariant i <= poolSize && R(k + 1, Now(Scan(i, poolSize)))
      {
        OthersRun(R, k + 1, Scan(i, poolSize));
        if conns == [] { break; }
        ghost var st := Now(Scan(i, poolSize));
        var ctx := conns[0];
        conns := conns[1..];
        assert Now(Ping(i, poolSize, ctx)) == Step(st, Next);
        PingOne(R, k + 1, ctx, i, poolSize);
        i := i + 1;
      }
      assert Now(Asleep) == Step(Now(Scan(i, poolSize)), Next);
    }

    /** One round of the check thread: thirty counts with a sleep after each, then checkThread. Whatever the
        borrowers do meanwhile, one pass is made and the pool stays conserved. */
    method CheckRound(ghost n: nat, ghost R: (nat, State) -> bool, ghost k: nat)
      requires Inv(n, Now(Asleep)) && Counts(R) && R(k, Now(Asleep))
      modifies this
      ensures Inv(n, Now(Asleep)) && R(k + 1, Now(Asleep))
    {
      ghost var Both := (k: nat, st) => Inv(n, st) && R(k, st);
      forall k: nat, st, e | Both(k, st) && Enabled(st, e) ensures Both(if e.Wake? then k + 1 else k, Step(st, e)) {
        StepKeepsInv(n, st, e);
      }
      var count := 1;
      while count < 30
        invariant count <= 30 && Both(k, Now(Asleep))
      {
        OthersRun(Both, k, Asleep);
        count := count + 1;
      }
      CheckThread(Both, k);
    }
  }

  function Successes(connects: seq<bool>): (s: seq<bool>)
    ensures |s| == multiset(connects)[true]
  {
    assert connects != [] ==> connects == connects[..|connects| - 1] + [connects[|connects| - 1]];
    if connects == [] then []
    else if connects[|connects| - 1] then Successes(connects[..|connects| - 1]) + [true]
    else Successes(connects[..|connects| - 1])
  }
}
