/** One connection end to end: a send queue, the bytes on the wire, and a reader, with writes,
    deliveries and read completions interleaved in any way. */
module Link {
  import opened Bytes
  import opened Frame
  import opened SessionIo

  /** `partial` bytes of the frame being written have reached the wire; the reader's socket has
      received the first `delivered` bytes of it. */
  datatype Link = Link(sender: Sender, partial: nat, wire: seq<byte>, delivered: nat, reader: Reader)

  const INIT := Link(IDLE_SENDER, 0, [], 0, FRESH_READER)

  datatype Event =
    | Send(m: Msg)
    | Push(k: nat)       // k more bytes of the outstanding write leave
    | Written            // HandleWrite after the whole frame left
    | WriteError         // HandleWrite with an error, wherever the frame got to
    | Deliver(k: nat)    // a TCP segment of k bytes arrives
    | Read(valid: bool)  // the outstanding read completes; CheckValid answers `valid`
    | HangUp             // a read error, or the session is closed

  function Front(l: Link): Msg
    requires l.sender.queue != []
  {
    l.sender.queue[0]
  }

  predicate Enabled(l: Link, e: Event) {
    match e
    case Send(m) => Sendable(m)
    case Push(k) =>
      l.sender.outstanding > 0 && l.sender.queue != [] && Sendable(Front(l)) && l.partial + k <= |Encode(Front(l))|
    case Written =>
      l.sender.outstanding > 0 && l.sender.queue != [] && Sendable(Front(l)) && l.partial == |Encode(Front(l))|
    case WriteError => l.sender.outstanding > 0
    case Deliver(k) => l.delivered + k <= |l.wire|
    case Read(_) => CanComplete(l.reader)
    case HangUp => true
  }

  function Step(l: Link, e: Event): Link
    requires Enabled(l, e)
  {
    match e
    case Send(m) => l.(sender := AfterSend(l.sender, m))
    case Push(k) => l.(partial := l.partial + k, wire := l.wire + Encode(Front(l))[l.partial..l.partial + k])
    case Written => l.(sender := AfterWritten(l.sender), partial := 0)
    case WriteError => l.(sender := AfterWriteError(l.sender))
    case Deliver(k) =>
      l.(delivered := l.delivered + k, reader := Receive(l.reader, l.wire[l.delivered..l.delivered + k]))
    case Read(valid) => l.(reader := if valid then Complete(l.reader) else Refuse(l.reader))
    case HangUp => l.(reader := l.reader.(pending := Halted))
  }

  datatype Run = Start | Then(prev: Run, e: Event)

  function At(run: Run): Link {
    match run
    case Start => INIT
    case Then(prev, e) => if Enabled(At(prev), e) then Step(At(prev), e) else At(prev)
  }

  // ----- the invariant -----

  ghost predicate AllSendable(l: Link) {
    (forall m :: m in l.sender.accepted ==> Sendable(m)) && (forall m :: m in l.sender.queue ==> Sendable(m))
  }

  /** The wire holds the frames of the written messages and a part of the front one. */
  ghost predicate WireInv(l: Link) {
    && AllSendable(l)
    && l.sender.done <= |l.sender.accepted|
    && (forall m :: m in l.sender.accepted[..l.sender.done] ==> Sendable(m))
    && (if l.sender.queue == [] then l.partial == 0 && l.wire == Wire(l.sender.accepted[..l.sender.done])
        else && l.partial <= |Encode(Front(l))|
             && l.wire == Wire(l.sender.accepted[..l.sender.done]) + Encode(Front(l))[..l.partial])
  }

  /** What a reader that is never stopped would make of the delivered bytes. */
  function Ideal(l: Link): Reader
    requires l.delivered <= |l.wire|
  {
    Drain(Receive(FRESH_READER, l.wire[..l.delivered]))
  }

  ghost predicate ReaderInv(l: Link) {
    && l.delivered <= |l.wire|
    && l.reader.posted <= Ideal(l).posted
    && (l.reader.pending != Halted ==> Drain(l.reader) == Ideal(l))
  }

  ghost predicate Inv(l: Link) {
    SenderInv(l.sender) && WireInv(l) && ReaderInv(l)
  }

  lemma SendStep(l: Link, e: Event)
    requires Inv(l) && Enabled(l, e) && e.Send?
    ensures Inv(Step(l, e))
  {
    SendKeepsInv(l.sender, e.m);
    var s, t := l.sender, Step(l, e).sender;
    assert t.accepted[..t.done] == s.accepted[..s.done];
  }

  lemma PushKeepsWire(l: Link, k: nat)
    requires SenderInv(l.sender) && WireInv(l) && Enabled(l, Push(k))
    ensures WireInv(Step(l, Push(k)))
  {
    var f, w := Encode(Front(l)), Wire(l.sender.accepted[..l.sender.done]);
    assert f[..l.partial] + f[l.partial..l.partial + k] == f[..l.partial + k];
    assert Step(l, Push(k)).wire == w + f[..l.partial + k];
  }

  lemma PushStep(l: Link, e: Event)
    requires Inv(l) && Enabled(l, e) && e.Push?
    ensures Inv(Step(l, e))
  {
    PushKeepsWire(l, e.k);
    assert Step(l, e).wire[..l.delivered] == l.wire[..l.delivered];
  }

  lemma WrittenStep(l: Link, e: Event)
    requires Inv(l) && Enabled(l, e) && e.Written?
    ensures Inv(Step(l, e))
  {
    var s, t := l.sender, Step(l, e).sender;
    WrittenKeepsInv(s);
    var before := s.accepted[..s.done];
    assert Front(l) == s.accepted[s.done];
    assert s.accepted[..t.done] == before + [Front(l)];
    WireConcat(before, [Front(l)]);
    assert Wire([Front(l)]) == Encode(Front(l)) + Wire([]);
    assert l.wire == Wire(before + [Front(l)]);
  }

  lemma WriteErrorStep(l: Link, e: Event)
    requires Inv(l) && Enabled(l, e) && e.WriteError?
    ensures Inv(Step(l, e))
  {
    WriteErrorKeepsInv(l.sender);
  }

  /** A segment keeps a reader in step with the ideal one, which drains what it has got. */
  lemma SegmentKeepsPace(r: Reader, got: Reader, chunk: seq<byte>)
    requires Drain(r) == Drain(got)
    ensures Drain(Receive(r, chunk)) == Drain(Receive(got, chunk))
  {
    SegmentationIsIrrelevant(got, chunk);
    SegmentationIsIrrelevant(r, chunk);
  }

  /** What the ideal reader has posted it keeps. */
  lemma SegmentKeepsPosted(posted: seq<Msg>, got: Reader, chunk: seq<byte>)
    requires posted <= Drain(got).posted
    ensures posted <= Drain(Receive(got, chunk)).posted
  {
    SegmentationIsIrrelevant(got, chunk);
    var drained := Drain(got);
    var more := Receive(drained, chunk);
    assert drained.posted <= more.posted <= Drain(more).posted;
  }

  lemma DeliverKeepsReader(l: Link, e: Event)
    requires ReaderInv(l) && Enabled(l, e) && e.Deliver?
    ensures ReaderInv(Step(l, e))
  {
    var l' := Step(l, e);
    var chunk := l.wire[l.delivered..l.delivered + e.k];
    assert l'.wire[..l'.delivered] == l.wire[..l.delivered] + chunk;
    var got := Receive(FRESH_READER, l.wire[..l.delivered]);
    assert Receive(FRESH_READER, l'.wire[..l'.delivered]) == Receive(got, chunk);
    SegmentKeepsPosted(l.reader.posted, got, chunk);
    if l.reader.pending != Halted {
      SegmentKeepsPace(l.reader, got, chunk);
    }
  }

  lemma DeliverStep(l: Link, e: Event)
    requires Inv(l) && Enabled(l, e) && e.Deliver?
    ensures Inv(Step(l, e))
  {
    DeliverKeepsReader(l, e);
  }

  lemma ReadStep(l: Link, e: Event)
    requires Inv(l) && Enabled(l, e) && (e.Read? || e.HangUp?)
    ensures Inv(Step(l, e))
  {
  }

  lemma StepKeepsInv(l: Link, e: Event)
    requires Inv(l) && Enabled(l, e)
    ensures Inv(Step(l, e))
  {
    match e
    case Send(_) => SendStep(l, e);
    case Push(_) => PushStep(l, e);
    case Written => WrittenStep(l, e);
    case WriteError => WriteErrorStep(l, e);
    case Deliver(_) => DeliverStep(l, e);
    case Read(_) => ReadStep(l, e);
    case HangUp => ReadStep(l, e);
  }

  lemma {:induction false} RunsKeepInv(run: Run)
    ensures Inv(At(run))
  {
    match run
    case Start =>
    case Then(prev, e) =>
      RunsKeepInv(prev);
      if Enabled(At(prev), e) {
        StepKeepsInv(At(prev), e);
      }
  }

  // ----- end to end -----

  lemma WireIsPrefix(l: Link)
    requires Inv(l)
    ensures AllSendable(l) && l.wire <= Wire(l.sender.accepted)
  {
    var s := l.sender;
    assert s.accepted == s.accepted[..s.done] + s.queue;
    WireConcat(s.accepted[..s.done], s.queue);
  }

  lemma IdealIsPrefix(l: Link)
    requires Inv(l)
    ensures Ideal(l).posted <= Readable(l.sender.accepted)
  {
    var all := Wire(l.sender.accepted);
    WireIsPrefix(l);
    PrefixPostsPrefix(FRESH_READER, l.wire[..l.delivered], all);
    DecodeInvertsEncode(l.sender.accepted, []);
    assert Receive(FRESH_READER, all) == Reader(Head, all, []);
  }

  /** For every interleaving and every segmentation, what the reader has posted is a prefix of what
      Send has accepted. */
  lemma PostedIsPrefixOfAccepted(run: Run)
    ensures At(run).reader.posted <= At(run).sender.accepted
  {
    RunsKeepInv(run);
    IdealIsPrefix(At(run));
  }

  /** Nothing is lost: once the queue is written out, everything has arrived and the reads that can
      complete have completed, a reader that was not stopped has posted every accepted message. */
  lemma NothingIsLost(run: Run)
    requires var l := At(run);
             l.sender.queue == [] && l.delivered == |l.wire| && !CanComplete(l.reader) && l.reader.pending != Halted
    ensures At(run).reader.posted == At(run).sender.accepted
  {
    var l := At(run);
    RunsKeepInv(run);
    assert l.sender.accepted[..l.sender.done] == l.sender.accepted && l.wire[..l.delivered] == l.wire;
    DecodeInvertsEncode(l.sender.accepted, []);
    assert Receive(FRESH_READER, l.wire) == Reader(Head, Wire(l.sender.accepted), []);
  }

  /** After a failed write no write is ever started again and nothing more reaches the wire. */
  lemma FailedStaysSilent(run: Run, e: Event)
    requires At(run).sender.failed && Enabled(At(run), e)
    ensures var l' := Step(At(run), e);
            l'.sender.failed && l'.sender.started == At(run).sender.started && l'.wire == At(run).wire
  {
    RunsKeepInv(run);
    if e.Send? {
      SendKeepsInv(At(run).sender, e.m);
    }
  }
}
