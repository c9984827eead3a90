/** The leased distributed lock of Common/src/dist_lock.cc.

    Redis stores at most one lease per lock key. `SET key id NX EX ttl` grants the lease when no
    unexpired lease is stored; the Lua script of releaseLock deletes it only when the stored owner
    equals the given identifier. Times are milliseconds on one clock.
 */
module LeaseLock {

  /** A lock identifier: a UUID, or the empty string that acquireLock returns on a time-out. */
  datatype Ident = Empty | Uuid(n: nat)

  datatype Lease = Lease(owner: Ident, expiry: nat)

  /** Redis shows a key only until it expires. */
  predicate Held<K>(locks: map<K, Lease>, key: K, now: nat) {
    key in locks && now < locks[key].expiry
  }

  function SetNxEx<K>(locks: map<K, Lease>, key: K, id: Ident, now: nat, ttl: nat): map<K, Lease> {
    if Held(locks, key, now) then locks else locks[key := Lease(id, now + ttl)]
  }

  function DelIfOwner<K>(locks: map<K, Lease>, key: K, id: Ident, now: nat): map<K, Lease> {
    if Held(locks, key, now) && locks[key].owner == id then locks - {key} else locks
  }

  // ----- every run of any number of clients -----

  datatype LockEvent =
    | Attempt(key: string, id: nat, ttl: nat)  // one SET NX EX attempt with identifier Uuid(id)
    | Unlock(key: string, ident: Ident)          // one EVAL of the release script
    | Pass(d: nat)

  datatype Config = Config(locks: map<string, Lease>, now: nat)

  function LockStep(c: Config, e: LockEvent): Config {
    match e
    case Attempt(key, id, ttl) => c.(locks := SetNxEx(c.locks, key, Uuid(id), c.now, ttl))
    case Unlock(key, ident) => c.(locks := DelIfOwner(c.locks, key, ident, c.now))
    case Pass(d) => c.(now := c.now + d)
  }

  function After(run: seq<LockEvent>): Config {
    if run == [] then Config(map[], 0)
    else LockStep(After(run[..|run| - 1]), run[|run| - 1])
  }

  /** The i-th event of the run is an attempt that wins the lock. */
  predicate Granted(run: seq<LockEvent>, i: nat) {
    i < |run| && run[i].Attempt? && !Held(After(run[..i]).locks, run[i].key, After(run[..i]).now)
  }

  function Deadline(run: seq<LockEvent>, i: nat): nat
    requires i < |run| && run[i].Attempt?
  {
    After(run[..i]).now + run[i].ttl
  }

  ghost predicate UniqueIds(run: seq<LockEvent>) {
    forall i, j :: 0 <= i < j < |run| && run[i].Attempt? && run[j].Attempt? ==> run[i].id != run[j].id
  }

  lemma AfterNext(run: seq<LockEvent>, n: nat)
    requires n < |run|
    ensures After(run[..n + 1]) == LockStep(After(run[..n]), run[n])
  {
    assert run[..n + 1][..n] == run[..n];
  }

  /** A granted lease stays in the store until its deadline, unless its own identifier releases it. */
  lemma {:induction false} HolderKeepsLease(run: seq<LockEvent>, i: nat, n: nat)
    requires Granted(run, i) && i < n <= |run|
    requires forall k :: i < k < n ==> run[k] != Unlock(run[i].key, Uuid(run[i].id))
    requires After(run[..n]).now < Deadline(run, i)
    ensures run[i].key in After(run[..n]).locks
    ensures After(run[..n]).locks[run[i].key] == Lease(Uuid(run[i].id), Deadline(run, i))
    decreases n
  {
    AfterNext(run, n - 1);
    if n > i + 1 {
      HolderKeepsLease(run, i, n - 1);
    }
  }

  /** Mutual exclusion: two grants of one key are separated by the first one's deadline or by a
      release that carries the first one's identifier. */
  lemma MutualExclusion(run: seq<LockEvent>, i: nat, j: nat)
    requires Granted(run, i) && Granted(run, j) && i < j && run[i].key == run[j].key
    ensures Deadline(run, i) <= After(run[..j]).now
            || exists k :: i < k < j && run[k] == Unlock(run[i].key, Uuid(run[i].id))
  {
    if After(run[..j]).now < Deadline(run, i)
       && forall k :: i < k < j ==> run[k] != Unlock(run[i].key, Uuid(run[i].id)) {
      HolderKeepsLease(run, i, j);
    }
  }

  /** From a grant on, the stored owner of its key is that identifier or one of a later attempt. */
  lemma {:induction false} OwnerIsRecent(run: seq<LockEvent>, j: nat, n: nat)
    requires Granted(run, j) && j < n <= |run|
    ensures run[j].key in After(run[..n]).locks ==>
              exists k :: j <= k < n && run[k].Attempt?
                          && After(run[..n]).locks[run[j].key].owner == Uuid(run[k].id)
    decreases n
  {
    AfterNext(run, n - 1);
    if n == j + 1 {
      assert After(run[..n]).locks[run[j].key].owner == Uuid(run[j].id);
    } else {
      OwnerIsRecent(run, j, n - 1);
      if run[n - 1].Attempt? && run[n - 1].key == run[j].key && run[j].key in After(run[..n]).locks {
        assert After(run[..n]).locks[run[j].key].owner == Uuid(run[n - 1].id)
               || After(run[..n]).locks == After(run[..n - 1]).locks;
      }
    }
  }

  /** A client that lost its lease to a later grant, or that never had one, cannot free the lock. */
  lemma StaleReleaseChangesNothing(run: seq<LockEvent>, i: nat, j: nat, k: nat)
    requires UniqueIds(run)
    requires i < |run| && run[i].Attempt? && Granted(run, j) && i < j < k < |run|
    requires run[k].Unlock? && run[k].key == run[j].key
    requires run[k].ident == Empty || run[k].ident == Uuid(run[i].id)
    ensures After(run[..k + 1]) == After(run[..k])
  {
    AfterNext(run, k);
    OwnerIsRecent(run, j, k);
  }

  /** R is closed under everything that any client can do and under the passing of time. */
  ghost predicate Closed(R: Config -> bool) {
    forall c, e :: R(c) ==> R(LockStep(c, e))
  }

  // ----- the client's loop -----

  /** One sleep between two attempts: it takes a millisecond and `more`, and `events` happen in it. */
  datatype Nap = Nap(more: nat, events: seq<LockEvent>)

  function AfterAll(c: Config, events: seq<LockEvent>): Config {
    if events == [] then c else LockStep(AfterAll(c, events[..|events| - 1]), events[|events| - 1])
  }

  function AfterNap(c: Config, nap: Nap): Config {
    AfterAll(LockStep(c, Pass(nap.more + 1)), nap.events)
  }

  /** The configuration at the n-th attempt of a client whose attempts before were refused: naps(k), naps(k + 1)
      and so on are the sleeps that it makes. */
  function Woken(c: Config, naps: nat -> Nap, k: nat, n: nat): Config {
    if n == 0 then c else AfterNap(Woken(c, naps, k, n - 1), naps(k + n - 1))
  }

  /** The client makes its n-th attempt, and every attempt before was refused. */
  ghost predicate Refused(c: Config, naps: nat -> Nap, k: nat, key: string, deadline: nat, n: nat) {
    forall i: nat :: i < n ==> var w := Woken(c, naps, k, i); w.now < deadline && Held(w.locks, key, w.now)
  }

  lemma RefusedOnceMore(c: Config, naps: nat -> Nap, k: nat, key: string, deadline: nat, n: nat)
    requires Refused(c, naps, k, key, deadline, n)
    requires var w := Woken(c, naps, k, n); w.now < deadline && Held(w.locks, key, w.now)
    ensures Refused(c, naps, k, key, deadline, n + 1)
  {
  }

  /** Some attempt before the deadline finds the lock free, and with it the first that does. */
  ghost predicate Gets(c: Config, naps: nat -> Nap, k: nat, key: string, deadline: nat) {
    exists n: nat :: Refused(c, naps, k, key, deadline, n)
      && Woken(c, naps, k, n).now < deadline && !Held(Woken(c, naps, k, n).locks, key, Woken(c, naps, k, n).now)
  }

  /** The first attempt that is not refused decides. */
  lemma GetsIff(c: Config, naps: nat -> Nap, k: nat, key: string, deadline: nat, n: nat)
    requires Refused(c, naps, k, key, deadline, n)
    requires var w := Woken(c, naps, k, n); w.now >= deadline || !Held(w.locks, key, w.now)
    ensures Gets(c, naps, k, key, deadline) <==> Woken(c, naps, k, n).now < deadline
  {
    if Woken(c, naps, k, n).now >= deadline {
      forall m: nat | Refused(c, naps, k, key, deadline, m) && m < n ensures Held(Woken(c, naps, k, m).locks, key, Woken(c, naps, k, m).now) {
      }
    }
  }

  lemma {:induction false} EventsTakeTime(c: Config, events: seq<LockEvent>)
    ensures c.now <= AfterAll(c, events).now
  {
    if events != [] {
      EventsTakeTime(c, events[..|events| - 1]);
    }
  }

  lemma {:induction false} EventsStayWithin(R: Config -> bool, c: Config, events: seq<LockEvent>)
    requires Closed(R) && R(c)
    ensures R(AfterAll(c, events))
  {
    if events != [] {
      EventsStayWithin(R, c, events[..|events| - 1]);
    }
  }

  /** The attempts of a client are steps of the machine: it stays within every closed set. */
  lemma {:induction false} WokenStaysWithin(R: Config -> bool, c: Config, naps: nat -> Nap, k: nat, n: nat)
    requires Closed(R) && R(c)
    ensures R(Woken(c, naps, k, n))
  {
    if n > 0 {
      WokenStaysWithin(R, c, naps, k, n - 1);
      var w, nap := Woken(c, naps, k, n - 1), naps(k + n - 1);
      assert R(LockStep(w, Pass(nap.more + 1)));
      EventsStayWithin(R, LockStep(w, Pass(nap.more + 1)), nap.events);
    }
  }

  /** The Redis server together with its other clients. What they do is given by `naps`, which no method
      can write; `slept` counts the sleeps that have been made. */
  class RedisServer {
    var locks: map<string, Lease>
    var now: nat
    const naps: nat -> Nap
    var slept: nat

    function Now(): Config
      reads this
    {
      Config(locks, now)
    }

    constructor (naps: nat -> Nap)
      ensures Now() == After([]) && this.naps == naps && slept == 0
    {
      locks, now, this.naps, slept := map[], 0, naps, 0;
    }

    /** The one-millisecond sleep between attempts: other clients run whatever they like. */
    method SleepWhileOthersRun()
      modifies this
      ensures Now() == AfterNap(old(Now()), naps(old(slept))) && slept == old(slept) + 1
      ensures old(now) < now
    {
      var nap := naps(slept);
      EventsTakeTime(LockStep(Now(), Pass(nap.more + 1)), nap.events);
      now, slept := now + nap.more + 1, slept + 1;
      ghost var c := Now();
      for i := 0 to |nap.events|
        invariant Now() == AfterAll(c, nap.events[..i]) && slept == old(slept) + 1
      {
        assert nap.events[..i + 1][..i] == nap.events[..i];
        var next := LockStep(Now(), nap.events[i]);
        locks, now := next.locks, next.now;
      }
      assert nap.events[..|nap.events|] == nap.events;
    }

    /** DistLock::acquireLock. `uuid` is the identifier drawn by generateUUID; the last of the `tries` attempts
        is the first that finds the lock free, unless the time is over before one does. */
    method AcquireLock(key: string, uuid: nat, lockTimeout: nat, acquireTimeout: nat)
      returns (identifier: Ident, ghost tries: nat)
      modifies this
      ensures identifier != Empty <==> Gets(old(Now()), naps, old(slept), key, old(now) + acquireTimeout)
      ensures slept == old(slept) + tries
      ensures Refused(old(Now()), naps, old(slept), key, old(now) + acquireTimeout, tries)
      ensures var w := Woken(old(Now()), naps, old(slept), tries);
              if identifier == Empty then w.now >= old(now) + acquireTimeout && Now() == w
              else && w.now < old(now) + acquireTimeout && !Held(w.locks, key, w.now)
                   && identifier == Uuid(uuid) && Now() == LockStep(w, Attempt(key, uuid, lockTimeout))
    {
      var endTime := now + acquireTimeout;
      tries := 0;
      while now < endTime
        invariant slept == old(slept) + tries && Now() == Woken(old(Now()), naps, old(slept), tries)
        invariant Refused(old(Now()), naps, old(slept), key, endTime, tries)
        decreases endTime - now
      {
        if !Held(locks, key, now) {
          GetsIff(old(Now()), naps, old(slept), key, endTime, tries);
          locks := locks[key := Lease(Uuid(uuid), now + lockTimeout)];
          return Uuid(uuid), tries;
        }
        RefusedOnceMore(old(Now()), naps, old(slept), key, endTime, tries);
        SleepWhileOthersRun();
        tries := tries + 1;
      }
      GetsIff(old(Now()), naps, old(slept), key, endTime, tries);
      return Empty, tries;
    }

    /** DistLock::releaseLock: one atomic script. */
    method ReleaseLock(key: string, identifier: Ident) returns (success: bool)
      modifies this`locks
      ensures success <==> old(Held(locks, key, now)) && old(locks)[key].owner == identifier
      ensures success ==> locks == old(locks) - {key}
      ensures Now() == LockStep(old(Now()), Unlock(key, identifier))
    {
      success := Held(locks, key, now) && locks[key].owner == identifier;
      if success {
        locks := locks - {key};
      }
    }
  }
}
