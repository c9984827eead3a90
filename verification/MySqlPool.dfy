/** MySqlPool (Common/src/mysql_dao.cc): a queue of connections with the time each was last found
    healthy, borrowers, and a checker that starts a pass after sixty one-second sleeps. Each
    mutex-protected section, query and sleep is one step (a pass begins by reading the queue length and
    the clock in one); borrowers interleave freely. The clock does not go back and the pool is not yet
    closed. */
module MySqlPool {

  /** A SqlConnection; `id` tells connections apart. */
  datatype Conn = Conn(id: nat, lastOper: int)

  const SLEEPS: nat := 60
  const STALE: int := 5

  /** Where the checker stands. */
  datatype Pc =
    | Asleep(count: nat)                     // in the sleep loop
    | Scan(done: nat, size: nat)             // the head of the loop over the queue
    | Check(done: nat, size: nat, conn: Conn) // holds a connection taken from the queue
    | Heal                                   // the head of the reconnect loop
    | Settle                                 // a new connection is queued, _fail_count not yet decremented

  /** `stamp` is the timestamp of the last pass, at first a time when all connections existed; `checked`
      the connections found healthy or made in it. `lost` counts connections that were destroyed
      without being counted in `fails`. */
  datatype State = State(queue: seq<Conn>, lent: set<Conn>, fails: int, pc: Pc, now: int, stamp: int,
                         next: nat, checked: set<nat>, lost: nat)

  datatype Event =
    | Borrow
    | Return(conn: Conn)
    | Elapse(d: nat)    // time passes
    | Slept(d: nat)     // sleep_for(1s) returns, ++count
    | Wake              // count has reached 60
    | Next              // the loop test and, if it passes, the pop
    | Examine(ok: bool) // SELECT 1 if the connection is stale
    | Reconnected
    | Counted
    | ReconnectFails
    | Healed

  predicate Enabled(st: State, e: Event) {
    match e
    case Borrow => st.queue != []
    case Return(c) => c in st.lent
    case Elapse(_) => true
    case Slept(d) => st.pc.Asleep? && st.pc.count < SLEEPS && d >= 1
    case Wake => st.pc.Asleep? && st.pc.count >= SLEEPS
    case Next => st.pc.Scan?
    case Examine(_) => st.pc.Check?
    case Reconnected | ReconnectFails => st.pc.Heal? && st.fails > 0
    case Counted => st.pc.Settle?
    case Healed => st.pc.Heal? && st.fails <= 0
  }

  /** The source tests `timestamp - conn->_last_oper_time >= 5`. */
  predicate Stale(st: State, c: Conn) { st.stamp - c.lastOper >= STALE }

  function Examined(st: State, ok: bool): State
    requires st.pc.Check?
  {
    var c, pc := st.pc.conn, Scan(st.pc.done + 1, st.pc.size);
    if !Stale(st, c) then st.(pc := pc, lost := st.lost + 1)
    else if ok then st.(pc := pc, queue := st.queue + [Conn(c.id, st.stamp)], checked := st.checked + {c.id})
    else st.(pc := pc, fails := st.fails + 1)
  }

  function Step(st: State, e: Event): State
    requires Enabled(st, e)
  {
    match e
    case Borrow => st.(queue := st.queue[1..], lent := st.lent + {st.queue[0]})
    case Return(c) => st.(queue := st.queue + [c], lent := st.lent - {c})
    case Elapse(d) => st.(now := st.now + d)
    case Slept(d) => st.(now := st.now + d, pc := Asleep(st.pc.count + 1))
    case Wake => st.(pc := Scan(0, |st.queue|), stamp := st.now, checked := {})
    case Next =>
      if st.pc.done < st.pc.size && st.queue != []
      then st.(queue := st.queue[1..], pc := Check(st.pc.done, st.pc.size, st.queue[0]))
      else st.(pc := Heal)
    case Examine(ok) => Examined(st, ok)
    case Reconnected => st.(queue := st.queue + [Conn(st.next, st.stamp)], next := st.next + 1, checked := st.checked + {st.next}, pc := Settle)
    case Counted => st.(fails := st.fails - 1, pc := Heal)
    case ReconnectFails | Healed => st.(pc := Asleep(0))
  }

  /** The pool as its constructor leaves it: connection i was made at times[i]. */
  function Started(times: seq<int>, now: int): State {
    State(seq(|times|, i requires 0 <= i < |times| => Conn(i, times[i])), {}, 0, Asleep(0), now, now, |times|, {}, 0)
  }

  predicate MadeBy(times: seq<int>, now: int) {
    forall i :: 0 <= i < |times| ==> times[i] <= now
  }

  /** Every event of the list is possible when its turn comes. */
  predicate Legal(st: State, es: seq<Event>) {
    es == [] || (Legal(st, es[..|es| - 1]) && Enabled(After(st, es[..|es| - 1]), es[|es| - 1]))
  }

  function After(st: State, es: seq<Event>): State {
    if es == [] then st
    else
      var prev := After(st, es[..|es| - 1]);
      if Enabled(prev, es[|es| - 1]) then Step(prev, es[|es| - 1]) else prev
  }

  lemma Extend(st: State, es: seq<Event>, e: Event)
    requires Legal(st, es) && Enabled(After(st, es), e)
    ensures Legal(st, es + [e]) && After(st, es + [e]) == Step(After(st, es), e)
  {
    assert (es + [e])[..|es|] == es;
  }

  lemma {:induction false} Join(st: State, a: seq<Event>, b: seq<Event>)
    requires Legal(st, a) && Legal(After(st, a), b)
    ensures Legal(st, a + b) && After(st, a + b) == After(After(st, a), b)
  {
    if b == [] {
      assert a + b == a;
    } else {
      Join(st, a, b[..|b| - 1]);
      Extend(st, a + b[..|b| - 1], b[|b| - 1]);
      assert a + b == a + b[..|b| - 1] + [b[|b| - 1]];
    }
  }

  // ----- conservation and ownership -----

  predicate Distinct(s: seq<Conn>) {
    forall i, j :: 0 <= i < j < |s| ==> s[i].id != s[j].id
  }

  predicate NotQueued(st: State, c: Conn) {
    forall i :: 0 <= i < |st.queue| ==> st.queue[i].id != c.id
  }

  /** No connection is in two places. */
  predicate OneOwner(st: State) {
    && Distinct(st.queue)
    && (forall i :: 0 <= i < |st.queue| ==> st.queue[i].id < st.next)
    && (forall c :: c in st.lent ==> c.id < st.next && NotQueued(st, c))
    && (forall c, d :: c in st.lent && d in st.lent && c.id == d.id ==> c == d)
    && (st.pc.Check? ==>
          && st.pc.conn.id < st.next && NotQueued(st, st.pc.conn)
          && forall c :: c in st.lent ==> c.id != st.pc.conn.id)
  }

  function Total(st: State): int {
    |st.queue| + |st.lent| + (if st.pc.Check? then 1 else 0) + st.fails - (if st.pc.Settle? then 1 else 0) + st.lost
  }

  /** How old a connection's last check can be. */
  predicate Aged(st: State, c: Conn) {
    if st.pc.Asleep? then c.lastOper <= st.stamp
    else if c.id in st.checked then c.lastOper == st.stamp
    else c.lastOper <= st.stamp - SLEEPS
  }

  predicate ClockOk(st: State) {
    && st.now >= st.stamp + (if st.pc.Asleep? then st.pc.count else 0)
    && (forall i :: 0 <= i < |st.queue| ==> Aged(st, st.queue[i]))
    && (forall c :: c in st.lent ==> Aged(st, c))
    && (st.pc.Check? ==> Aged(st, st.pc.conn))
  }

  predicate DebtOk(st: State) { st.fails >= (if st.pc.Settle? then 1 else 0) }

  predicate Inv(n: nat, st: State) {
    OneOwner(st) && Total(st) == n && DebtOk(st) && ClockOk(st) && forall i :: i in st.checked ==> i < st.next
  }

  lemma BorrowKeepsOwners(st: State, e: Event)
    requires OneOwner(st) && Enabled(st, e) && e.Borrow?
    ensures OneOwner(Step(st, e))
  {
    var st' := Step(st, e);
    assert forall i :: 0 <= i < |st'.queue| ==> st'.queue[i] == st.queue[i + 1];
  }

  lemma NextKeepsOwners(st: State, e: Event)
    requires OneOwner(st) && Enabled(st, e) && e.Next?
    ensures OneOwner(Step(st, e))
  {
    var st' := Step(st, e);
    if st'.pc.Check? {
      assert forall i :: 0 <= i < |st'.queue| ==> st'.queue[i] == st.queue[i + 1];
    }
  }

  lemma ReturnKeepsOwners(st: State, e: Event)
    requires OneOwner(st) && Enabled(st, e) && e.Return?
    ensures OneOwner(Step(st, e))
  {
  }

  lemma ReconnectKeepsOwners(st: State, e: Event)
    requires OneOwner(st) && Enabled(st, e) && e.Reconnected?
    ensures OneOwner(Step(st, e))
  {
  }

  lemma ExamineKeepsOwners(st: State, e: Event)
    requires OneOwner(st) && Enabled(st, e) && e.Examine?
    ensures OneOwner(Step(st, e))
  {
  }

  lemma StepKeepsOwners(st: State, e: Event)
    requires OneOwner(st) && Enabled(st, e)
    ensures OneOwner(Step(st, e))
  {
    if e.Borrow? {
      BorrowKeepsOwners(st, e);
    } else if e.Next? {
      NextKeepsOwners(st, e);
    } else if e.Return? {
      ReturnKeepsOwners(st, e);
    } else if e.Reconnected? {
      ReconnectKeepsOwners(st, e);
    } else if e.Examine? {
      ExamineKeepsOwners(st, e);
    }
  }

  lemma StepKeepsTotal(st: State, e: Event)
    requires OneOwner(st) && Enabled(st, e)
    ensures Total(Step(st, e)) == Total(st)
  {
    match e
    case Borrow => assert st.queue[0] !in st.lent;
    case _ =>
  }

  lemma StepKeepsClock(st: State, e: Event)
    requires OneOwner(st) && ClockOk(st) && Enabled(st, e) && forall i :: i in st.checked ==> i < st.next
    ensures ClockOk(Step(st, e))
  {
  }

  lemma StepKeepsInv(n: nat, st: State, e: Event)
    requires Inv(n, st) && Enabled(st, e)
    ensures Inv(n, Step(st, e))
  {
    StepKeepsOwners(st, e);
    StepKeepsTotal(st, e);
    StepKeepsClock(st, e);
  }

  lemma {:induction false} EventsKeepInv(n: nat, st: State, es: seq<Event>)
    requires Inv(n, st) && Legal(st, es)
    ensures Inv(n, After(st, es))
  {
    if es != [] {
      EventsKeepInv(n, st, es[..|es| - 1]);
      StepKeepsInv(n, After(st, es[..|es| - 1]), es[|es| - 1]);
    }
  }

  /** In every interleaving the connections queued, lent, held by the checker, owed and lost are as many
      as the pool started with, and none is in two places. */
  lemma {:induction false} PoolIsConserved(times: seq<int>, now: int, es: seq<Event>)
    requires MadeBy(times, now) && Legal(Started(times, now), es)
    ensures OneOwner(After(Started(times, now), es)) && Total(After(Started(times, now), es)) == |times|
  {
    EventsKeepInv(|times|, Started(times, now), es);
  }

  /** The timing argument: two passes start at least 60 seconds apart, so the connection the checker
      holds was last found healthy less than 5 seconds ago exactly if that was in this very pass. */
  lemma NotStaleIffCheckedInThisPass(times: seq<int>, now: int, es: seq<Event>)
    requires MadeBy(times, now) && Legal(Started(times, now), es) && After(Started(times, now), es).pc.Check?
    ensures var st := After(Started(times, now), es);
            && (!Stale(st, st.pc.conn) <==> st.pc.conn.id in st.checked)
            && (st.pc.conn.id !in st.checked ==> st.stamp - st.pc.conn.lastOper >= SLEEPS)
  {
    EventsKeepInv(|times|, Started(times, now), es);
  }

  /** A connection is destroyed uncounted in exactly one case: the checker takes one a second time in a pass. */
  lemma StepLosesIff(times: seq<int>, now: int, es: seq<Event>, e: Event)
    requires MadeBy(times, now) && Legal(Started(times, now), es) && Enabled(After(Started(times, now), es), e)
    ensures var st := After(Started(times, now), es);
            Step(st, e).lost > st.lost <==> e.Examine? && st.pc.conn.id in st.checked
    ensures Step(After(Started(times, now), es), e).lost >= After(Started(times, now), es).lost
  {
    EventsKeepInv(|times|, Started(times, now), es);
  }

  // ----- passes without borrowers lose nothing -----

  /** No connection is borrowed while the checker goes over the queue. */
  predicate Quiet(st: State, es: seq<Event>) {
    es == [] ||
    (var prev := After(st, es[..|es| - 1]);
     Quiet(st, es[..|es| - 1]) && (es[|es| - 1].Borrow? ==> !prev.pc.Scan? && !prev.pc.Check?))
  }

  /** The first k queued connections were not yet checked in this pass. */
  predicate FrontUnchecked(st: State, k: int) {
    k <= |st.queue| && forall i :: 0 <= i < k ==> st.queue[i].id !in st.checked
  }

  predicate QuietInv(st: State) {
    match st.pc
    case Scan(done, size) => FrontUnchecked(st, size - done)
    case Check(done, size, c) => FrontUnchecked(st, size - done - 1) && c.id !in st.checked
    case _ => true
  }

  lemma QuietStep(n: nat, st: State, e: Event)
    requires Inv(n, st) && QuietInv(st) && Enabled(st, e)
    requires e.Borrow? ==> !st.pc.Scan? && !st.pc.Check?
    ensures QuietInv(Step(st, e)) && Step(st, e).lost == st.lost
  {
  }

  /** Nothing is lost, however often connections are borrowed between the passes and returned at any time. */
  lemma {:induction false} QuietRunsLoseNothing(times: seq<int>, now: int, es: seq<Event>)
    requires MadeBy(times, now) && Legal(Started(times, now), es) && Quiet(Started(times, now), es)
    ensures QuietInv(After(Started(times, now), es)) && After(Started(times, now), es).lost == 0
  {
    if es != [] {
      var front := es[..|es| - 1];
      QuietRunsLoseNothing(times, now, front);
      EventsKeepInv(|times|, Started(times, now), front);
      QuietStep(|times|, After(Started(times, now), front), es[|es| - 1]);
    }
  }

  /** So in such runs the connections queued, lent, held by the checker and owed are all there are. */
  lemma QuietRunsConserve(times: seq<int>, now: int, es: seq<Event>)
    requires MadeBy(times, now) && Legal(Started(times, now), es) && Quiet(Started(times, now), es)
    ensures var st := After(Started(times, now), es);
            |st.queue| + |st.lent| + (if st.pc.Check? then 1 else 0) + st.fails - (if st.pc.Settle? then 1 else 0)
            == |times|
  {
    QuietRunsLoseNothing(times, now, es);
    PoolIsConserved(times, now, es);
  }

  // ----- courses of events -----

  lemma One(st: State, e: Event)
    requires Enabled(st, e)
    ensures Legal(st, [e]) && After(st, [e]) == Step(st, e)
  {
    Extend(st, [], e);
    assert [] + [e] == [e];
  }

  /** One event, then others. */
  lemma OneThen(st: State, e: Event, es: seq<Event>)
    requires Enabled(st, e) && Legal(Step(st, e), es)
    ensures Legal(st, [e] + es) && After(st, [e] + es) == After(Step(st, e), es)
  {
    One(st, e);
    Join(st, [e], es);
  }

  lemma {:induction false} SleepThrough(st: State) returns (es: seq<Event>)
    requires st.pc.Asleep? && st.pc.count <= SLEEPS
    ensures Legal(st, es)
    ensures After(st, es) == st.(pc := Asleep(SLEEPS), now := st.now + SLEEPS - st.pc.count)
    ensures Examine(false) !in es
    decreases SLEEPS - st.pc.count
  {
    es := [];
    if st.pc.count < SLEEPS {
      es := SleepThrough(Step(st, Slept(1)));
      OneThen(st, Slept(1), es);
      es := [Slept(1)] + es;
    }
  }

  lemma {:induction false} BorrowAll(st: State) returns (es: seq<Event>)
    ensures Legal(st, es) && Examine(false) !in es
    ensures After(st, es) == st.(queue := [], lent := After(st, es).lent)
    decreases |st.queue|
  {
    es := [];
    if st.queue != [] {
      es := BorrowAll(Step(st, Borrow));
      OneThen(st, Borrow, es);
      es := [Borrow] + es;
    }
  }

  /** The checker is alone with a stale connection and may go on: it puts it back and drops it. */
  lemma SecondLookLoses(st: State)
    requires st.pc.Check? && Stale(st, st.pc.conn) && st.queue == [] && st.pc.done + 1 < st.pc.size
    ensures var es := [Examine(true), Next, Examine(true)];
            Legal(st, es) && After(st, es).lost == st.lost + 1 && After(st, es).fails == st.fails
  {
    var back := Step(st, Examine(true));
    var again := Step(back, Next);
    One(again, Examine(true));
    OneThen(back, Next, [Examine(true)]);
    OneThen(st, Examine(true), [Next] + [Examine(true)]);
    assert [Examine(true)] + ([Next] + [Examine(true)]) == [Examine(true), Next, Examine(true)];
  }

  lemma PassLoses(st: State) returns (es: seq<Event>)
    requires Enabled(st, Wake) && |st.queue| >= 2 && st.now - st.queue[0].lastOper >= STALE
    ensures Legal(st, es) && Examine(false) !in es
    ensures After(st, es).lost == st.lost + 1 && After(st, es).fails == st.fails
  {
    var woken := Step(st, Wake);
    var taken := Step(woken, Next);
    var borrows := BorrowAll(taken);
    var last := [Examine(true), Next, Examine(true)];
    SecondLookLoses(After(taken, borrows));
    Join(taken, borrows, last);
    OneThen(woken, Next, borrows + last);
    OneThen(st, Wake, [Next] + (borrows + last));
    es := [Wake] + ([Next] + (borrows + last));
  }

  /** With two or more connections one can be lost although no query ever fails: while the checker has
      its first connection the others are borrowed; the checker puts the first back, takes it again,
      finds it too young to check, and drops it. */
  lemma {:induction false} HealthyConnectionCanBeLost(times: seq<int>, now: int) returns (es: seq<Event>)
    requires MadeBy(times, now) && |times| >= 2
    ensures Legal(Started(times, now), es) && Examine(false) !in es
    ensures After(Started(times, now), es).lost == 1 && After(Started(times, now), es).fails == 0
  {
    var st := Started(times, now);
    var sleeps := SleepThrough(st);
    var slept := After(st, sleeps);
    assert slept.queue[0] == Conn(0, times[0]);
    var pass := PassLoses(slept);
    Join(st, sleeps, pass);
    es := sleeps + pass;
  }

  /** A pass looks at no more connections than there are, and has checked none before its first look. */
  predicate FirstLook(n: nat, st: State) {
    match st.pc
    case Scan(done, size) => size <= n && (done == 0 ==> st.checked == {})
    case Check(done, size, _) => done < size <= n && (done == 0 ==> st.checked == {})
    case _ => true
  }

  lemma FewStep(n: nat, st: State, e: Event)
    requires n <= 1 && Inv(n, st) && Enabled(st, e) && FirstLook(n, st) && st.lost == 0
    ensures FirstLook(n, Step(st, e)) && Step(st, e).lost == 0
  {
  }

  lemma {:induction false} FewConnectionsAreKept(times: seq<int>, now: int, es: seq<Event>)
    requires MadeBy(times, now) && |times| <= 1 && Legal(Started(times, now), es)
    ensures FirstLook(|times|, After(Started(times, now), es)) && After(Started(times, now), es).lost == 0
  {
    if es != [] {
      var front := es[..|es| - 1];
      FewConnectionsAreKept(times, now, front);
      EventsKeepInv(|times|, Started(times, now), front);
      FewStep(|times|, After(Started(times, now), front), es[|es| - 1]);
    }
  }

  /** What is known before the pool starts: a connection can get lost if and only if there are two. */
  lemma LossIsPossibleIff(times: seq<int>, now: int)
    requires MadeBy(times, now)
    ensures (exists es :: Legal(Started(times, now), es) && After(Started(times, now), es).lost > 0) <==> |times| >= 2
  {
    if |times| >= 2 {
      var es := HealthyConnectionCanBeLost(times, now);
    } else {
      forall es | Legal(Started(times, now), es) ensures After(Started(times, now), es).lost == 0 {
        FewConnectionsAreKept(times, now, es);
      }
    }
  }

  // ----- the debt -----

  lemma {:induction false} RepayAll(st: State) returns (es: seq<Event>)
    requires st.pc.Heal? && st.fails >= 0
    ensures Legal(st, es) && After(st, es).fails == 0
    decreases st.fails
  {
    es := [];
    if st.fails > 0 {
      var pushed := Step(st, Reconnected);
      es := RepayAll(Step(pushed, Counted));
      OneThen(pushed, Counted, es);
      OneThen(st, Reconnected, [Counted] + es);
      es := [Reconnected] + ([Counted] + es);
    }
  }

  /** A pass over the queue always comes to the reconnect loop. */
  lemma {:induction false} FinishPass(st: State) returns (es: seq<Event>)
    requires st.pc.Scan?
    ensures Legal(st, es) && After(st, es).pc.Heal? && After(st, es).fails == st.fails
    decreases st.pc.size - st.pc.done
  {
    var next := Step(st, Next);
    if next.pc.Check? {
      es := FinishPass(Step(next, Examine(true)));
      OneThen(next, Examine(true), es);
      es := [Examine(true)] + es;
    } else {
      es := [];
    }
    OneThen(st, Next, es);
    es := [Next] + es;
  }

  lemma ReachesHeal(st: State) returns (es: seq<Event>)
    requires DebtOk(st) && (st.pc.Asleep? ==> st.pc.count <= SLEEPS)
    ensures Legal(st, es) && After(st, es).pc.Heal? && After(st, es).fails >= 0
  {
    match st.pc
    case Asleep(_) =>
      var sleeps := SleepThrough(st);
      var slept := After(st, sleeps);
      var pass := FinishPass(Step(slept, Wake));
      OneThen(slept, Wake, pass);
      Join(st, sleeps, [Wake] + pass);
      es := sleeps + ([Wake] + pass);
    case Scan(_, _) => es := FinishPass(st);
    case Check(_, _, _) =>
      es := FinishPass(Step(st, Examine(true)));
      OneThen(st, Examine(true), es);
      es := [Examine(true)] + es;
    case Heal => es := [];
    case Settle =>
      One(st, Counted);
      es := [Counted];
  }

  /** Unlike the Redis pool this one reconnects after every pass, also when no connection is left: from
      every reachable state the whole debt can still be repaid. */
  lemma DebtCanAlwaysBeRepaid(times: seq<int>, now: int, es: seq<Event>) returns (more: seq<Event>)
    requires MadeBy(times, now) && Legal(Started(times, now), es)
    ensures Legal(Started(times, now), es + more) && After(Started(times, now), es + more).fails == 0
  {
    var st := After(Started(times, now), es);
    EventsKeepInv(|times|, Started(times, now), es);
    CountStaysBelow(Started(times, now), es);
    var a := ReachesHeal(st);
    var b := RepayAll(After(st, a));
    Join(st, a, b);
    more := a + b;
    Join(Started(times, now), es, more);
  }

  lemma {:induction false} CountStaysBelow(st: State, es: seq<Event>)
    requires Legal(st, es) && (st.pc.Asleep? ==> st.pc.count <= SLEEPS)
    ensures After(st, es).pc.Asleep? ==> After(st, es).pc.count <= SLEEPS
  {
    if es != [] {
      CountStaysBelow(st, es[..|es| - 1]);
    }
  }

  // ----- the class -----

  /** R(k, st): st is reached after k passes of the checker have begun. */
  ghost predicate Counts(R: (nat, State) -> bool) {
    forall k: nat, st, e :: R(k, st) && Enabled(st, e) ==> R(if e.Wake? then k + 1 else k, Step(st, e))
  }

  /** Whether queries and reconnects succeed, how much time passes and what borrowers do in between is
      drawn arbitrarily. `lent` records who has which connection, `stamp`, `checked` and `lost` are the
      bookkeeping of the machine. */
  class MySqlPool {
    var conns: seq<Conn>
    var failCount: int
    var lent: set<Conn>
    var now: int
    var next: nat
    const checking: bool  // the check thread runs
    ghost var stamp: int
    ghost var checked: set<nat>
    ghost var lost: nat

    ghost function Now(pc: Pc): State
      reads this
    {
      State(conns, lent, failCount, pc, now, stamp, next, checked, lost)
    }

    /** Connection i is made at times[i], unless connect raises there, at i == failsAt: then the pool keeps
        the connections made so far and no checker is started. */
    constructor (times: seq<int>, failsAt: nat, clock: int)
      ensures failsAt >= |times| ==> checking && Now(Asleep(0)) == Started(times, clock)
      ensures failsAt < |times| ==> !checking && Now(Asleep(0)) == Started(times[..failsAt], clock)
    {
      var queue: seq<Conn> := [];
      while |queue| < |times| && |queue| != failsAt
        invariant |queue| <= |times| && |queue| <= failsAt
        invariant queue == seq(|queue|, k requires 0 <= k < |queue| <= |times| => Conn(k, times[k]))
        decreases |times| - |queue|
      {
        queue := queue + [Conn(|queue|, times[|queue|])];
      }
      conns, failCount, lent, now, next := queue, 0, {}, clock, |queue|;
      checking := |queue| == |times|;
      stamp, checked, lost := clock, {}, 0;
    }

    /** The waiting is over: the queue is not empty. */
    method GetConnection() returns (c: Conn)
      requires conns != []
      modifies this`conns, this`lent
      ensures forall pc :: Now(pc) == Step(old(Now(pc)), Borrow)
      ensures c == old(conns[0])
    {
      c := conns[0];
      conns := conns[1..];
      lent := lent + {c};
    }

    method ReturnConnection(c: Conn)
      requires c in lent
      modifies this`conns, this`lent
      ensures forall pc :: Now(pc) == Step(old(Now(pc)), Return(c))
    {
      conns := conns + [c];
      lent := lent - {c};
    }

    // In the methods below R is any set of states, each with a number of passes, that respects the steps:
    // the methods run the machine, and the number says how many passes they have begun.

    /** While the checker is outside the mutex time passes and other threads borrow and return. */
    method OthersRun(ghost R: (nat, State) -> bool, ghost k: nat, ghost pc: Pc)
      requires Counts(R) && R(k, Now(pc))
      modifies this`conns, this`lent, this`now
      ensures R(k, Now(pc)) && now >= old(now)
    {
      var rounds: nat := *;
      while rounds > 0
        invariant R(k, Now(pc)) && now >= old(now)
      {
        ghost var st := Now(pc);
        var borrow: bool, d: nat := *, *;
        if borrow && conns != [] {
          var _ := GetConnection();
        } else if lent != {} {
          var c :| c in lent;
          ReturnConnection(c);
        } else {
          now := now + d;
          assert Now(pc) == Step(st, Elapse(d));
        }
        rounds := rounds - 1;
      }
    }

    /** reconnect: the new connection carries the pass's timestamp. What the caller's reconnect loop has
        done then is one step of the machine. */
    method Reconnect(timestamp: int, up: bool) returns (ok: bool)
      requires timestamp == stamp
      modifies this`conns, this`next, this`checked
      ensures ok == up
      ensures conns == (if up then old(conns) + [Conn(old(next), timestamp)] else old(conns))
      ensures failCount > 0 ==>
                Now(if ok then Settle else Asleep(0)) == Step(old(Now(Heal)), if ok then Reconnected else ReconnectFails)
    {
      if !up { return false; }
      conns, next, checked := conns + [Conn(next, timestamp)], next + 1, checked + {next};
      return true;
    }

    /** The body of the loop over the queue, for a connection taken from it. */
    method Examination(ghost R: (nat, State) -> bool, ghost k: nat, conn: Conn, timestamp: int, ghost done: nat, ghost size: nat)
      requires Counts(R) && R(k, Now(Check(done, size, conn))) && timestamp == stamp
      modifies this
      ensures R(k, Now(Scan(done + 1, size))) && stamp == old(stamp)
    {
      OthersRun(R, k, Check(done, size, conn));
      ghost var st := Now(Check(done, size, conn));
      if timestamp - conn.lastOper >= STALE {
        var healthy: bool := *;
        if healthy {
          conns, checked := conns + [Conn(conn.id, timestamp)], checked + {conn.id};
        } else {
          failCount := failCount + 1;
        }
        assert Now(Scan(done + 1, size)) == Step(st, Examine(healthy));
      } else {
        lost := lost + 1;
        assert Now(Scan(done + 1, size)) == Step(st, Examine(true));
      }
    }

    /** The reconnect loop after the pass; `up` says that MySQL accepts every connection of this loop. */
    method Repay(ghost R: (nat, State) -> bool, ghost k: nat, timestamp: int, up: bool)
      requires Counts(R) && R(k, Now(Heal)) && timestamp == stamp
      modifies this
      ensures R(k, Now(Asleep(0)))
      ensures up ==> failCount <= 0
    {
      while failCount > 0
        invariant R(k, Now(Heal)) && timestamp == stamp
        decreases failCount
      {
        var accepts: bool := *;
        var res := Reconnect(timestamp, up || accepts);
        if !res { return; }
        OthersRun(R, k, Settle);
        ghost var st := Now(Settle);
        failCount := failCount - 1;
        assert Now(Heal) == Step(st, Counted);
      }
      assert Now(Asleep(0)) == Step(Now(Heal), Healed);
    }

    /** checkConnection, with other threads at work whenever the mutex is free: one whole pass, which ends with the whole
        debt repaid if MySQL accepts connections again, whatever was left in the queue. */
    method CheckConnection(ghost R: (nat, State) -> bool, ghost k: nat, up: bool)
      requires Counts(R) && R(k, Now(Asleep(SLEEPS)))
      modifies this
      ensures R(k + 1, Now(Asleep(0)))
      ensures up ==> failCount <= 0
    {
      ghost var st := Now(Asleep(SLEEPS));
      var queueSize, timestamp := |conns|, now;
      stamp, checked := now, {};
      assert Now(Scan(0, queueSize)) == Step(st, Wake);
      var processed := 0;
      while processed < queueSize
        invariant processed <= queueSize && R(k + 1, Now(Scan(processed, queueSize))) && timestamp == stamp
      {
        OthersRun(R, k + 1, Scan(processed, queueSize));
        if conns == [] { break; }
        st := Now(Scan(processed, queueSize));
        var conn := conns[0];
        conns := conns[1..];
        assert Now(Check(processed, queueSize, conn)) == Step(st, Next);
        Examination(R, k + 1, conn, timestamp, processed, queueSize);
        processed := processed + 1;
      }
      assert Now(Heal) == Step(Now(Scan(processed, queueSize)), Next);
      Repay(R, k + 1, timestamp, up);
    }

    /** One round of the check thread: sixty sleeps, then a pass. */
    method CheckRound(ghost R: (nat, State) -> bool, ghost k: nat, up: bool)
      requires checking && Counts(R) && R(k, Now(Asleep(0)))
      modifies this
      ensures R(k + 1, Now(Asleep(0)))
      ensures up ==> failCount <= 0
    {
      var count := 0;
      while count < SLEEPS
        invariant count <= SLEEPS && R(k, Now(Asleep(count)))
      {
        OthersRun(R, k, Asleep(count));
        ghost var st := Now(Asleep(count));
        var d: nat :| d >= 1;
        now := now + d;
        count := count + 1;
        assert Now(Asleep(count)) == Step(st, Slept(d));
      }
      CheckConnection(R, k, up);
    }
  }
}
