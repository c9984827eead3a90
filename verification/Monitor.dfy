/** The message queue between the sessions and the worker thread of LogicSystem: PostMsgToQue, DelMsg
    and the stop sequence of the destructor, one mutex-protected action at a time. */
module Monitor {

  /** A queued message: the session's serial number for it, and whether its id has a callback. */
  datatype Item = Item(serial: nat, registered: bool)

  /** Awake: to lock the mutex and test the wait predicate. The worker holds the mutex in
      AboutToSleep (predicate false, not yet blocked), Handling, Popping and Draining. */
  datatype Worker = Awake | AboutToSleep | Asleep | Handling | Popping | Draining | Exited

  /** `toNotify` counts notify_one calls that are due; `posted`, `popped` and `handled` are history. */
  datatype State = State(queue: seq<Item>, worker: Worker, toNotify: nat, stop: bool,
                         posted: seq<Item>, popped: nat, handled: seq<Item>)

  const INIT := State([], Awake, 0, false, [], 0, [])

  datatype Event =
    | Post(m: Item)    // lock, push, unlock; due to notify when the queue was empty
    | Notify           // one notify_one call
    | SpuriousWakeup
    | Work             // the worker's next action
    | Stop             // ~LogicSystem sets _b_stop, without the mutex, and is due to notify

  predicate HoldsMutex(w: Worker) {
    w == AboutToSleep || w == Handling || w == Popping || w == Draining
  }

  predicate Enabled(s: State, e: Event) {
    match e
    case Post(_) => !HoldsMutex(s.worker)
    case Notify => s.toNotify > 0
    case SpuriousWakeup => s.worker == Asleep
    case Work => s.worker != Asleep && s.worker != Exited
    case Stop => !s.stop
  }

  function AfterWork(s: State): State
    requires s.worker != Asleep && s.worker != Exited
    requires s.worker == Handling || s.worker == Popping ==> s.queue != []
  {
    match s.worker
    case Awake => s.(worker := if s.stop then Draining else if s.queue != [] then Handling else AboutToSleep)
    case AboutToSleep => s.(worker := Asleep)
    case Handling =>
      s.(worker := Popping, handled := if s.queue[0].registered then s.handled + [s.queue[0]] else s.handled)
    case Popping => s.(worker := Awake, queue := s.queue[1..], popped := s.popped + 1)
    case Draining =>
      if s.queue == [] then s.(worker := Exited)
      else if s.queue[0].registered then s.(handled := s.handled + [s.queue[0]])
      else s.(queue := s.queue[1..], popped := s.popped + 1)
  }

  function Step(s: State, e: Event): State
    requires Enabled(s, e)
  {
    match e
    case Post(m) =>
      s.(queue := s.queue + [m], posted := s.posted + [m], toNotify := s.toNotify + if s.queue == [] then 1 else 0)
    case Notify => s.(toNotify := s.toNotify - 1, worker := if s.worker == Asleep then Awake else s.worker)
    case SpuriousWakeup => s.(worker := Awake)
    case Work => if (s.worker == Handling || s.worker == Popping) && s.queue == [] then s else AfterWork(s)
    case Stop => s.(stop := true, toNotify := s.toNotify + 1)
  }

  datatype Run = Start | Then(prev: Run, e: Event)

  function At(run: Run): State {
    match run
    case Start => INIT
    case Then(prev, e) => if Enabled(At(prev), e) then Step(At(prev), e) else At(prev)
  }

  function Registered(ms: seq<Item>): seq<Item> {
    if ms == [] then []
    else Registered(ms[..|ms| - 1]) + if ms[|ms| - 1].registered then [ms[|ms| - 1]] else []
  }

  ghost predicate Inv(s: State) {
    && s.popped + |s.queue| == |s.posted| && s.posted[s.popped..] == s.queue
    && (s.worker == Handling || s.worker == Popping ==> s.queue != [])
    && (s.worker == AboutToSleep ==> s.queue == [])
    && (s.worker == Asleep && s.queue != [] ==> s.toNotify > 0)
    && (s.worker == Draining || s.worker == Exited ==> s.stop)
    && (s.worker != Draining && s.worker != Exited ==> s.handled == Registered(s.posted[..Taken(s)]))
  }

  /** How many messages the worker has taken up. */
  function Taken(s: State): nat {
    s.popped + if s.worker == Popping then 1 else 0
  }

  lemma RegisteredSnoc(ms: seq<Item>, n: nat)
    requires n < |ms|
    ensures Registered(ms[..n + 1]) == Registered(ms[..n]) + if ms[n].registered then [ms[n]] else []
  {
    assert ms[..n + 1][..n] == ms[..n];
  }

  lemma PostKeepsInv(s: State, e: Event)
    requires Inv(s) && Enabled(s, e) && e.Post?
    ensures Inv(Step(s, e))
  {
    var t := Step(s, e);
    assert t.posted[..Taken(t)] == s.posted[..Taken(s)];
    assert t.posted[t.popped..] == s.queue + [e.m];
  }

  lemma HandleKeepsInv(s: State)
    requires Inv(s) && s.worker == Handling
    ensures Inv(Step(s, Work))
  {
    RegisteredSnoc(s.posted, s.popped);
    assert s.posted[s.popped] == s.posted[s.popped..][0];
  }

  lemma PopKeepsInv(s: State)
    requires Inv(s) && Enabled(s, Work) && s.queue != [] && (s.worker == Popping || s.worker == Draining)
    ensures Inv(Step(s, Work))
  {
    assert s.posted[s.popped + 1..] == s.queue[1..];
  }

  lemma WorkKeepsInv(s: State)
    requires Inv(s) && Enabled(s, Work)
    ensures Inv(Step(s, Work))
  {
    if s.worker == Handling {
      HandleKeepsInv(s);
    } else if s.queue != [] && (s.worker == Popping || s.worker == Draining) {
      PopKeepsInv(s);
    }
  }

  /** The messages with a callback, all of them, in their order. */
  lemma {:induction false} RegisteredAre(a: seq<Item>, b: seq<Item>)
    ensures forall m :: m in Registered(a) <==> m in a && m.registered
    ensures Registered(a + b) == Registered(a) + Registered(b)
    decreases |a| + |b|
  {
    if b != [] {
      RegisteredAre(a, b[..|b| - 1]);
      assert (a + b)[..|a + b| - 1] == a + b[..|b| - 1];
    } else {
      assert a + b == a;
      if a != [] {
        RegisteredAre(a[..|a| - 1], []);
        assert a == a[..|a| - 1] + [a[|a| - 1]];
      }
    }
  }

  lemma StepKeepsInv(s: State, e: Event)
    requires Inv(s) && Enabled(s, e)
    ensures Inv(Step(s, e))
  {
    match e
    case Post(_) => PostKeepsInv(s, e);
    case Work => WorkKeepsInv(s);
    case _ =>
  }

  lemma {:induction false} RunsKeepInv(run: Run)
    ensures Inv(At(run))
  {
    match run
    case Start => assert Registered([]) == [];
    case Then(prev, e) =>
      RunsKeepInv(prev);
      if Enabled(At(prev), e) {
        StepKeepsInv(At(prev), e);
      }
  }

  /** No wake-up is lost, although only the 0-to-1 transition notifies: whenever the worker sleeps
      over a non-empty queue, a notification is due. */
  lemma NoLostWakeup(run: Run)
    ensures At(run).worker == Asleep && At(run).queue != [] ==> At(run).toNotify > 0
    ensures At(run).worker == AboutToSleep ==> At(run).queue == []
  {
    RunsKeepInv(run);
  }

  /** Until the stop-time drain, the handled messages are the registered ones among those taken up,
      each once and in posting order, and what is still queued are the rest. */
  lemma HandledOnceInOrder(run: Run)
    requires At(run).worker != Draining && At(run).worker != Exited
    ensures var s := At(run);
            && Taken(s) <= |s.posted| && s.handled == Registered(s.posted[..Taken(s)])
            && s.queue == s.posted[s.popped..]
  {
    RunsKeepInv(run);
  }

  // ----- after the destructor has set _b_stop -----

  /** next goes on from run with events that are possible when they happen. */
  predicate GoesOn(run: Run, next: Run) {
    next == run || (next.Then? && GoesOn(run, next.prev) && Enabled(At(next.prev), next.e))
  }

  ghost predicate SomeRegistered(s: State) {
    exists i :: 0 <= i < |s.queue| && s.queue[i].registered
  }

  /** The drain never pops a message that it hands to a callback, and holds the mutex, so that nothing
      is posted meanwhile: it ends if and only if no queued message has a registered id. */
  lemma DrainEndsIff(run: Run)
    requires At(run).worker == Draining
    ensures (exists next :: GoesOn(run, next) && At(next).worker == Exited) <==> !SomeRegistered(At(run))
  {
    if SomeRegistered(At(run)) {
      forall next | GoesOn(run, next) ensures At(next).worker != Exited {
        RegisteredStays(run, next);
      }
    } else {
      var next := UnregisteredDrain(run);
    }
  }

  lemma {:induction false} RegisteredStays(run: Run, next: Run)
    requires At(run).worker == Draining && SomeRegistered(At(run)) && GoesOn(run, next)
    ensures At(next).worker == Draining && SomeRegistered(At(next))
  {
    if next != run {
      RegisteredStays(run, next.prev);
      var s, t := At(next.prev), At(next);
      var i :| 0 <= i < |s.queue| && s.queue[i].registered;
      if next.e.Work? && !s.queue[0].registered {
        assert t.queue[i - 1] == s.queue[i];
      } else {
        assert t.queue == s.queue;
      }
    }
  }

  lemma {:induction false} UnregisteredDrain(run: Run) returns (next: Run)
    requires At(run).worker == Draining && !SomeRegistered(At(run))
    ensures GoesOn(run, next) && At(next).worker == Exited
    decreases |At(run).queue|
  {
    var one := Then(run, Work);
    assert GoesOn(run, run) && GoesOn(run, one);
    if At(run).queue == [] {
      next := one;
    } else {
      assert forall i :: 0 <= i < |At(one).queue| ==> At(one).queue[i] == At(run).queue[i + 1];
      next := UnregisteredDrain(one);
      GoesOnFurther(run, one, next);
    }
  }

  lemma {:induction false} GoesOnFurther(a: Run, b: Run, c: Run)
    requires GoesOn(a, b) && GoesOn(b, c)
    ensures GoesOn(a, c)
  {
    if c != b {
      GoesOnFurther(a, b, c.prev);
    }
  }

  /** 1 while the worker has taken a message up and not popped it. */
  function InHand(s: State): nat { if s.worker == Handling || s.worker == Popping then 1 else 0 }

  lemma {:induction false} StopFlagStays(run: Run, next: Run)
    requires At(run).stop && GoesOn(run, next)
    ensures At(next).stop
  {
    if next != run {
      StopFlagStays(run, next.prev);
    }
  }

  lemma TakesUpNoOther(s: State, e: Event)
    requires s.stop && Enabled(s, e) && Step(s, e).worker != Draining && Step(s, e).worker != Exited
    ensures s.worker != Draining && s.worker != Exited
    ensures Step(s, e).stop && Step(s, e).popped + InHand(Step(s, e)) <= s.popped + InHand(s)
  {
  }

  /** Once _b_stop is set the worker finishes the message in hand and takes up no other before it drains. */
  lemma {:induction false} StopEndsHandling(run: Run, next: Run)
    requires At(run).stop && GoesOn(run, next) && At(next).worker != Draining && At(next).worker != Exited
    ensures At(next).stop && At(next).popped + InHand(At(next)) <= At(run).popped + InHand(At(run))
  {
    if next != run {
      StopFlagStays(run, next.prev);
      TakesUpNoOther(At(next.prev), next.e);
      StopEndsHandling(run, next.prev);
    }
  }

  /** The worker sleeps, _b_stop is set, nothing is due to wake it, and the destructor waits in join. */
  predicate Stuck(s: State) { s.stop && s.worker == Asleep && s.toNotify == 0 }

  /** _b_stop is set without the mutex. Its notification can be lost if and only if it is set between the
      worker's test of the predicate and its blocking. A destructor that took the mutex could not do
      that, as the worker holds it there. */
  lemma {:induction false} StopCanBeMissedIff(run: Run)
    requires !At(run).stop
    ensures CanMissStop(run) <==> At(run).worker == AboutToSleep
  {
    if At(run).worker == AboutToSleep {
      var next := StopMissed(run);
    } else {
      forall next | GoesOn(Then(run, Stop), next) ensures !Stuck(At(next)) {
        StopIsNoticed(run, next);
      }
    }
  }

  ghost predicate CanMissStop(run: Run)
  {
    exists next :: GoesOn(Then(run, Stop), next) && Stuck(At(next))
  }

  lemma StopMissed(run: Run) returns (next: Run)
    requires !At(run).stop && At(run).worker == AboutToSleep
    ensures GoesOn(Then(run, Stop), next) && Stuck(At(next))
  {
    var notified := AllNotified(Then(run, Stop));
    next := Then(notified, Work);
  }

  /** All notifications that are due happen while the worker is not yet asleep. */
  lemma {:induction false} AllNotified(run: Run) returns (next: Run)
    requires At(run).worker == AboutToSleep && At(run).stop
    ensures GoesOn(run, next) && At(next).worker == AboutToSleep && At(next).stop && At(next).toNotify == 0
    decreases At(run).toNotify
  {
    if At(run).toNotify == 0 {
      next := run;
    } else {
      var one := Then(run, Notify);
      assert GoesOn(run, run) && GoesOn(run, one);
      next := AllNotified(one);
      GoesOnFurther(run, one, next);
    }
  }

  /** _b_stop is set, and a sleeping worker has a notification due. */
  predicate Noticed(s: State) {
    s.stop && s.worker != AboutToSleep && (s.worker == Asleep ==> s.toNotify > 0)
  }

  lemma {:induction false} StopIsNoticed(run: Run, next: Run)
    requires !At(run).stop && At(run).worker != AboutToSleep && GoesOn(Then(run, Stop), next)
    ensures Noticed(At(next))
  {
    if next != Then(run, Stop) {
      StopIsNoticed(run, next.prev);
      StaysNoticed(At(next.prev), next.e);
    }
  }

  lemma StaysNoticed(s: State, e: Event)
    requires Noticed(s) && Enabled(s, e)
    ensures Noticed(Step(s, e))
  {
  }

  // ----- the queue in place -----

  class MsgQueue {
    var msgQue: seq<Item>
    var handled: seq<Item>  // the callbacks made, in order

    constructor ()
      ensures msgQue == [] && handled == []
    {
      msgQue, handled := [], [];
    }

    /** PostMsgToQue; the result says whether notify_one is called. */
    method PostMsgToQue(m: Item) returns (notify: bool)
      modifies this`msgQue
      ensures msgQue == old(msgQue) + [m]
      ensures notify <==> old(msgQue) == []
      ensures forall s: State :: s.queue == old(msgQue) && Enabled(s, Post(m)) ==>
                Step(s, Post(m)).queue == msgQue && Step(s, Post(m)).toNotify == s.toNotify + if notify then 1 else 0
    {
      msgQue := msgQue + [m];
      notify := |msgQue| == 1;
    }

    /** The loop of DelMsg between two waits, when nothing is posted meanwhile. */
    method DelMsg()
      modifies this
      ensures msgQue == [] && handled == old(handled) + Registered(old(msgQue))
    {
      ghost var taken := 0;
      while msgQue != []
        invariant taken + |msgQue| == |old(msgQue)| && msgQue == old(msgQue)[taken..]
        invariant handled == old(handled) + Registered(old(msgQue)[..taken])
        decreases |msgQue|
      {
        RegisteredSnoc(old(msgQue), taken);
        var node := msgQue[0];
        taken := taken + 1;
        if !node.registered {
          msgQue := msgQue[1..];
          continue;
        }
        handled := handled + [node];
        msgQue := msgQue[1..];
      }
      assert old(msgQue)[..taken] == old(msgQue);
    }
  }
}
