/** The two halves of a CSession's traffic (ChatServer/src/csession.cc): the bounded send queue with
    one asynchronous write in flight, and the two-stage reader. Each class is proved against a
    function on values. */
module SessionIo {
  import opened Bytes
  import opened Frame

  const MAX_SENDQUE: nat := 1000

  // ----- the send queue as a value -----

  /** `outstanding` counts the asynchronous writes under way. `accepted`, `done` and `started` are
      history: the messages Send has queued, how many of them are written, and those handed to
      async_write. */
  datatype Sender = Sender(queue: seq<Msg>, outstanding: nat, failed: bool,
                           accepted: seq<Msg>, done: nat, started: seq<Msg>)

  const IDLE_SENDER := Sender([], 0, false, [], 0, [])

  /** Send drops the message when the queue is full, and starts a write only on an empty queue. */
  function AfterSend(s: Sender, m: Msg): Sender {
    if |s.queue| > MAX_SENDQUE then s
    else if |s.queue| > 0 then s.(queue := s.queue + [m], accepted := s.accepted + [m])
    else Sender([m], s.outstanding + 1, s.failed, s.accepted + [m], s.done, s.started + [m])
  }

  /** HandleWrite without error: pop the front; write the next node if there is one. */
  function AfterWritten(s: Sender): Sender
    requires s.outstanding > 0 && s.queue != []
  {
    if |s.queue| > 1
    then s.(queue := s.queue[1..], done := s.done + 1, started := s.started + [s.queue[1]])
    else s.(queue := [], outstanding := s.outstanding - 1, done := s.done + 1)
  }

  /** HandleWrite with an error: the queue stays as it is and nothing is written any more. */
  function AfterWriteError(s: Sender): Sender
    requires s.outstanding > 0
  {
    s.(outstanding := s.outstanding - 1, failed := true)
  }

  ghost predicate SenderInv(s: Sender) {
    && |s.queue| <= MAX_SENDQUE + 1
    && (!s.failed ==> s.outstanding == if s.queue == [] then 0 else 1)
    && (s.failed ==> s.outstanding == 0 && s.queue != [])
    && s.done + |s.queue| == |s.accepted| && s.accepted[s.done..] == s.queue
    && s.started == s.accepted[..s.done] + (if s.queue == [] then [] else [s.queue[0]])
  }

  /** The queue machine: while no write has failed, the queue is non-empty exactly when one write is
      outstanding, and that write carries the front; the queue never exceeds its bound; what was
      written or started are the accepted messages in order. */
  lemma SendKeepsInv(s: Sender, m: Msg)
    requires SenderInv(s)
    ensures SenderInv(AfterSend(s, m))
    ensures AfterSend(s, m) == s <==> |s.queue| == MAX_SENDQUE + 1
    ensures s.failed ==> AfterSend(s, m).started == s.started && AfterSend(s, m).failed
  {
    var t := AfterSend(s, m);
    if t != s {
      assert t.accepted[..t.done] == s.accepted[..s.done];
      assert (s.accepted + [m])[s.done..] == s.queue + [m];
    }
  }

  lemma WrittenKeepsInv(s: Sender)
    requires SenderInv(s) && s.outstanding > 0
    ensures !s.failed && SenderInv(AfterWritten(s)) && AfterWritten(s).accepted == s.accepted
  {
    var t := AfterWritten(s);
    assert s.queue == [s.queue[0]] + s.queue[1..];
    assert s.accepted[..s.done + 1] == s.accepted[..s.done] + [s.queue[0]];
    assert s.accepted[s.done + 1..] == s.queue[1..];
  }

  lemma WriteErrorKeepsInv(s: Sender)
    requires SenderInv(s) && s.outstanding > 0
    ensures !s.failed && SenderInv(AfterWriteError(s)) && AfterWriteError(s).outstanding == 0
  {
    var t := AfterWriteError(s);
    assert t.accepted[..t.done] == s.accepted[..s.done] && t.started == s.started && t.queue == s.queue;
  }

  /** The bytes of node n are the frame of message m. */
  ghost predicate Carries(n: MsgNode, m: Msg)
    reads n, n.data
  {
    n.Valid() && Sendable(m) && n.totalLen == |Encode(m)| && n.data[..n.totalLen] == Encode(m)
  }

  ghost predicate CarryAll(nodes: seq<MsgNode>, ms: seq<Msg>)
    reads nodes, set n | n in nodes :: n.data
  {
    |nodes| == |ms| && forall i :: 0 <= i < |nodes| ==> Carries(nodes[i], ms[i])
  }

  lemma CarryOneMore(nodes: seq<MsgNode>, ms: seq<Msg>, n: MsgNode, m: Msg)
    requires CarryAll(nodes, ms) && Carries(n, m)
    ensures CarryAll(nodes + [n], ms + [m])
  {
  }

  class SendQueue {
    var sendQue: seq<MsgNode>
    var inFlight: MsgNode?  // the node whose buffer async_write is reading
    ghost var state: Sender

    ghost predicate Valid()
      reads this, sendQue, set n | n in sendQue :: n.data
    {
      && CarryAll(sendQue, state.queue)
      && SenderInv(state)
      && (state.outstanding == 0 <==> inFlight == null)
      && (inFlight != null ==> sendQue != [] && inFlight == sendQue[0])
    }

    constructor ()
      ensures Valid() && state == IDLE_SENDER
    {
      sendQue, inFlight := [], null;
      state := IDLE_SENDER;
    }

    method Send(m: Msg) returns (queued: bool)
      requires Valid() && Sendable(m)
      modifies this
      ensures Valid() && state == AfterSend(old(state), m)
      ensures queued <==> old(|sendQue|) <= MAX_SENDQUE
    {
      var sendQueSize := |sendQue|;
      if sendQueSize > MAX_SENDQUE {
        return false;
      }
      var node := new MsgNode.Send(m);
      CarryOneMore(sendQue, state.queue, node, m);
      SendKeepsInv(state, m);
      state := AfterSend(state, m);
      sendQue := sendQue + [node];
      if sendQueSize > 0 {
        return true;
      }
      inFlight := sendQue[0];
      return true;
    }

    /** The completion handler of the outstanding write. */
    method HandleWrite(error: bool)
      requires Valid() && inFlight != null
      modifies this
      ensures Valid()
      ensures state == if error then AfterWriteError(old(state)) else AfterWritten(old(state))
    {
      inFlight := null;
      if !error {
        WrittenKeepsInv(state);
        state := AfterWritten(state);
        sendQue := sendQue[1..];
        if sendQue != [] {
          inFlight := sendQue[0];
        }
      } else {
        WriteErrorKeepsInv(state);
        state := AfterWriteError(state);
      }
    }
  }

  // ----- the reader in place -----

  /** A read that completes on a session the server has dropped: its bytes are consumed, nothing is
      posted and no further read is started. */
  function Refuse(r: Reader): Reader
    requires CanComplete(r)
  {
    Reader(Halted, Complete(r).unread, r.posted)
  }

  /** Reads complete as long as the bytes suffice; the server drops the session after n of them. */
  function DrainFor(r: Reader, n: nat): Reader
    decreases n
  {
    if !CanComplete(r) then r else if n == 0 then Refuse(r) else DrainFor(Complete(r), n - 1)
  }

  /** The reads that the bytes suffice for. */
  function Reads(r: Reader): nat
    decreases Work(r)
  {
    if CanComplete(r) then 1 + Reads(Complete(r)) else 0
  }

  /** A session that is dropped has posted a prefix of what it would have posted, and all of it if it is
      dropped after the last read. */
  lemma {:induction false} DroppedPostsPrefix(r: Reader, n: nat)
    ensures r.posted <= DrainFor(r, n).posted <= Drain(r).posted
    ensures n >= Reads(r) ==> DrainFor(r, n) == Drain(r)
    ensures n < Reads(r) ==> DrainFor(r, n).pending == Halted
    decreases n
  {
    if CanComplete(r) && n > 0 {
      DroppedPostsPrefix(Complete(r), n - 1);
    }
  }

  class SessionReader {
    const data: array<byte>      // _data
    const headNode: MsgNode      // _recv_head_node
    var msgNode: MsgNode?        // _recv_msg_node
    var pending: Pending         // the outstanding async_read
    var unread: seq<byte>        // received by the socket, not yet read
    var posted: seq<Msg>         // handed to LogicSystem::PostMsgToQue

    ghost predicate Valid()
      reads this, headNode, if msgNode != null then {msgNode, msgNode.data} else {}
    {
      && data.Length == MAX_LENGTH && headNode.Valid() && headNode.totalLen == HEAD_TOTAL_LEN
      && headNode.data != data
      && (pending.Body? ==>
            msgNode != null && msgNode != headNode && msgNode.data != data && msgNode.data != headNode.data
            && msgNode.Valid() && msgNode.curLen == 0 && msgNode.totalLen == pending.len <= MAX_LENGTH
            && msgNode.msgId == pending.id)
    }

    ghost function View(): Reader
      reads this
    {
      Reader(pending, unread, posted)
    }

    constructor ()
      ensures Valid() && View() == FRESH_READER && fresh(data) && fresh(headNode) && fresh(headNode.data)
    {
      data := new byte[MAX_LENGTH](_ => 0);
      headNode := new MsgNode.Receive(HEAD_TOTAL_LEN, 0);
      msgNode, pending, unread, posted := null, Head, [], [];
    }

    /** async_read of n bytes into the zeroed _data. */
    method ReadExactly(n: nat)
      requires data.Length == MAX_LENGTH && n <= MAX_LENGTH && n <= |unread|
      modifies this`unread, data
      ensures data[..n] == old(unread)[..n] && unread == old(unread)[n..]
      ensures forall i :: n <= i < MAX_LENGTH ==> data[i] == 0
    {
      forall i | 0 <= i < MAX_LENGTH {
        data[i] := 0;
      }
      forall i | 0 <= i < n {
        data[i] := unread[i];
      }
      unread := unread[n..];
    }

    /** The handler of AsyncReadHead. `valid` is what CheckValid answers. */
    method OnHeadRead(valid: bool)
      requires Valid() && pending.Head? && CanComplete(View())
      modifies this, data, headNode, headNode.data
      ensures Valid() && View() == if valid then Complete(old(View())) else Refuse(old(View()))
      ensures msgNode != old(msgNode) ==> fresh(msgNode) && fresh(msgNode.data)
    {
      ReadExactly(HEAD_TOTAL_LEN);
      if !valid {
        pending := Halted;
        return;
      }
      headNode.Clear();
      forall i | 0 <= i < HEAD_TOTAL_LEN {
        headNode.data[i] := data[i];
      }
      assert forall i :: 0 <= i < HEAD_TOTAL_LEN ==> headNode.data[i] == data[..HEAD_TOTAL_LEN][i];
      var msgId := FromNetwork(headNode.data[0], headNode.data[1]);
      var msgLen := FromNetwork(headNode.data[2], headNode.data[3]);
      if msgLen < 0 || msgLen > MAX_LENGTH {
        pending := Halted;
        return;
      }
      msgNode := new MsgNode.Receive(msgLen, msgId);
      pending := Body(msgId, msgLen);
    }

    /** The handler of AsyncReadBody. */
    method OnBodyRead(valid: bool)
      requires Valid() && pending.Body? && CanComplete(View())
      modifies this, data, msgNode, msgNode.data
      ensures Valid() && View() == if valid then Complete(old(View())) else Refuse(old(View()))
      ensures msgNode == old(msgNode)
    {
      var n := pending.len;
      ReadExactly(n);
      assert msgNode.curLen == 0;
      if !valid {
        pending := Halted;
        return;
      }
      forall i | 0 <= i < n {
        msgNode.data[i] := data[i];
      }
      msgNode.curLen := msgNode.curLen + n;
      assert msgNode.data[..n] == data[..n] == old(unread)[..n];
      posted := posted + [Msg(msgNode.msgId, msgNode.data[..msgNode.curLen])];
      pending := Head;
    }

    /** A segment arrives; reads complete while the bytes suffice. CheckValid finds the session for the
        next `validReads` of them, and not any more. */
    method OnSegment(chunk: seq<byte>, validReads: nat)
      requires Valid() && (msgNode != null ==> msgNode != headNode && msgNode.data != headNode.data && msgNode.data != data)
      modifies this, data, headNode, headNode.data, if msgNode != null then {msgNode, msgNode.data} else {}
      ensures Valid() && View() == DrainFor(Receive(old(View()), chunk), validReads)
    {
      unread := unread + chunk;
      var left := validReads;
      while (pending.Head? && |unread| >= HEAD_TOTAL_LEN) || (pending.Body? && |unread| >= pending.len)
        invariant Valid() && DrainFor(View(), left) == DrainFor(Receive(old(View()), chunk), validReads)
        invariant msgNode != null && msgNode != old(msgNode) ==> fresh(msgNode) && fresh(msgNode.data)
        decreases Work(View())
      {
        var valid := left > 0;
        if pending.Head? {
          OnHeadRead(valid);
        } else {
          OnBodyRead(valid);
        }
        if valid {
          left := left - 1;
        }
      }
    }
  }
}
