/** The wire format: a 2-byte message id, a 2-byte body length, both big-endian two's complement, and
    the body. The buffers of ChatServer/src/msg_node.h hold frames in place; the functions say which
    bytes they hold and how a byte stream is cut back into messages. */
module Frame {
  import opened Bytes

  // a C++ short
  type int16 = x: int | -32768 <= x < 32768

  const HEAD_TOTAL_LEN: nat := 4
  const MAX_LENGTH: nat := 2048

  // the longest body for which the frame length still is a short
  const MAX_BODY: nat := 32763

  datatype Msg = Msg(id: int16, body: seq<byte>)

  predicate Sendable(m: Msg) { |m.body| <= MAX_BODY }

  // ----- network byte order -----

  function HighByte(x: int16): byte { (x % 0x1_0000) / 256 }

  function LowByte(x: int16): byte { (x % 0x1_0000) % 256 }

  function FromNetwork(high: byte, low: byte): int16 {
    var u := high * 256 + low;
    if u < 0x8000 then u else u - 0x1_0000
  }

  lemma NetworkRoundTrip(x: int16)
    ensures FromNetwork(HighByte(x), LowByte(x)) == x
  {
    assert x % 0x1_0000 == if x < 0 then x + 0x1_0000 else x;
  }

  function Header(id: int16, len: int16): (h: seq<byte>) {
    [HighByte(id), LowByte(id), HighByte(len), LowByte(len)]
  }

  function Encode(m: Msg): (f: seq<byte>)
    requires Sendable(m)
    ensures |f| == HEAD_TOTAL_LEN + |m.body|
  {
    Header(m.id, |m.body|) + m.body
  }

  /** Network byte order: the more significant byte of id and length is sent first. */
  lemma EncodeIsBigEndian(m: Msg)
    requires Sendable(m)
    ensures var id1: int, id0: int := Encode(m)[0], Encode(m)[1];
            (256 * id1 + id0 - m.id) % 0x1_0000 == 0
    ensures var len1: int, len0: int := Encode(m)[2], Encode(m)[3];
            256 * len1 + len0 == |m.body|
    ensures Encode(m)[4..] == m.body
  {
  }

  /** Everything the frames of ms put on the wire, in order. */
  function Wire(ms: seq<Msg>): (w: seq<byte>)
    requires forall m :: m in ms ==> Sendable(m)
  {
    if ms == [] then [] else Encode(ms[0]) + Wire(ms[1..])
  }

  // ----- the buffers -----

  /** MsgNode, and its two uses RecvNode (msgId set by the reader) and SendNode. */
  class MsgNode {
    const data: array<byte>
    const totalLen: nat
    const msgId: int16
    var curLen: nat

    ghost predicate Valid()
      reads this
    {
      data.Length == totalLen + 1
    }

    /** MsgNode(max_len): a zeroed buffer with one spare byte. */
    constructor Receive(maxLen: nat, msgId: int16)
      ensures Valid() && fresh(data) && totalLen == maxLen && this.msgId == msgId && curLen == 0
      ensures data[..] == seq(maxLen + 1, _ => 0)
    {
      data := new byte[maxLen + 1](_ => 0);
      totalLen, this.msgId, curLen := maxLen, msgId, 0;
    }

    /** SendNode(msg, max_len, msg_id): the frame of the message, filled in place. */
    constructor Send(m: Msg)
      requires Sendable(m)
      ensures Valid() && fresh(data) && msgId == m.id && curLen == 0
      ensures totalLen == |Encode(m)| && data[..totalLen] == Encode(m) && data[totalLen] == 0
    {
      data := new byte[|m.body| + HEAD_TOTAL_LEN + 1](_ => 0);
      totalLen, msgId, curLen := |m.body| + HEAD_TOTAL_LEN, m.id, 0;
      new;
      data[0], data[1] := HighByte(m.id), LowByte(m.id);
      data[2], data[3] := HighByte(|m.body|), LowByte(|m.body|);
      forall i | 0 <= i < |m.body| {
        data[HEAD_TOTAL_LEN + i] := m.body[i];
      }
      assert data[..4] == Header(m.id, |m.body|);
      assert data[4..totalLen] == m.body;
      assert data[..totalLen] == data[..4] + data[4..totalLen];
    }

    method Clear()
      requires Valid()
      modifies this`curLen, data
      ensures Valid() && curLen == 0
      ensures forall i :: 0 <= i < totalLen ==> data[i] == 0
      ensures data[totalLen] == old(data[totalLen])
    {
      forall i | 0 <= i < totalLen {
        data[i] := 0;
      }
      curLen := 0;
    }
  }

  // ----- cutting a byte stream into messages -----

  /** What the reader waits for: AsyncReadHead, AsyncReadBody, or nothing any more. */
  datatype Pending = Head | Body(id: int16, len: nat) | Halted

  datatype Reader = Reader(pending: Pending, unread: seq<byte>, posted: seq<Msg>)

  const FRESH_READER := Reader(Head, [], [])

  predicate CanComplete(r: Reader) {
    match r.pending
    case Head => |r.unread| >= HEAD_TOTAL_LEN
    case Body(_, len) => |r.unread| >= len
    case Halted => false
  }

  /** A completed header read. A length above MAX_LENGTH ends the session; so does a negative one,
      for which no receive buffer can be made. */
  function AfterHead(r: Reader): Reader
    requires |r.unread| >= HEAD_TOTAL_LEN
  {
    var id := FromNetwork(r.unread[0], r.unread[1]);
    var len := FromNetwork(r.unread[2], r.unread[3]);
    Reader(if 0 <= len <= MAX_LENGTH then Body(id, len) else Halted, r.unread[HEAD_TOTAL_LEN..], r.posted)
  }

  /** The reader takes the first byte of id and of length for the more significant one. */
  lemma HeaderIsBigEndian(r: Reader)
    requires r.pending.Head? && CanComplete(r)
    ensures var len1: int, len0: int := r.unread[2], r.unread[3];
            if 256 * len1 + len0 > MAX_LENGTH then Complete(r).pending == Halted
            else Complete(r).pending.Body? && Complete(r).pending.len == 256 * len1 + len0
    ensures var id1: int, id0: int := r.unread[0], r.unread[1];
            Complete(r).pending.Body? ==> (256 * id1 + id0 - Complete(r).pending.id) % 0x1_0000 == 0
    ensures Complete(r).unread == r.unread[4..] && Complete(r).posted == r.posted
  {
  }

  /** A completed body read posts the message. */
  function AfterBody(r: Reader): Reader
    requires r.pending.Body? && |r.unread| >= r.pending.len
  {
    Reader(Head, r.unread[r.pending.len..], r.posted + [Msg(r.pending.id, r.unread[..r.pending.len])])
  }

  function Complete(r: Reader): Reader
    requires CanComplete(r)
  {
    if r.pending.Head? then AfterHead(r) else AfterBody(r)
  }

  function Work(r: Reader): nat {
    2 * |r.unread| + if r.pending.Body? then 1 else 0
  }

  /** Completes reads as long as the bytes suffice. */
  function Drain(r: Reader): (d: Reader)
    ensures !CanComplete(d)
    ensures r.posted <= d.posted
    decreases Work(r)
  {
    if CanComplete(r) then Drain(Complete(r)) else r
  }

  function Receive(r: Reader, chunk: seq<byte>): Reader {
    r.(unread := r.unread + chunk)
  }

  /** TCP segmentation does not matter: draining after every segment gives what draining the whole
      stream gives. */
  lemma {:induction false} SegmentationIsIrrelevant(r: Reader, chunk: seq<byte>)
    ensures Drain(Receive(Drain(r), chunk)) == Drain(Receive(r, chunk))
    decreases Work(r)
  {
    if CanComplete(r) {
      SegmentationIsIrrelevant(Complete(r), chunk);
      CompleteKeepsTail(r, chunk);
    }
  }

  lemma CompleteKeepsTail(r: Reader, chunk: seq<byte>)
    requires CanComplete(r)
    ensures CanComplete(Receive(r, chunk)) && Complete(Receive(r, chunk)) == Receive(Complete(r), chunk)
  {
    var all := r.unread + chunk;
    if r.pending.Head? {
      assert all[HEAD_TOTAL_LEN..] == r.unread[HEAD_TOTAL_LEN..] + chunk;
    } else {
      assert all[r.pending.len..] == r.unread[r.pending.len..] + chunk;
      assert all[..r.pending.len] == r.unread[..r.pending.len];
    }
  }

  predicate Fits(m: Msg) { |m.body| <= MAX_LENGTH }

  /** The messages before the first one whose body is longer than a reader accepts. */
  function Readable(ms: seq<Msg>): (p: seq<Msg>)
    ensures p <= ms
  {
    if ms == [] || !Fits(ms[0]) then [] else [ms[0]] + Readable(ms[1..])
  }

  lemma HeaderParses(m: Msg, rest: seq<byte>, posted: seq<Msg>)
    requires Sendable(m)
    ensures var r := Reader(Head, Encode(m) + rest, posted);
            && CanComplete(r)
            && Complete(r) == Reader(if Fits(m) then Body(m.id, |m.body|) else Halted, m.body + rest, posted)
  {
    NetworkRoundTrip(m.id);
    NetworkRoundTrip(|m.body|);
    assert (Encode(m) + rest)[HEAD_TOTAL_LEN..] == m.body + rest;
  }

  lemma {:induction false} OneFrame(m: Msg, rest: seq<byte>, posted: seq<Msg>)
    requires Sendable(m)
    ensures var d := Drain(Reader(Head, Encode(m) + rest, posted));
            d == if Fits(m) then Drain(Reader(Head, rest, posted + [m])) else Reader(Halted, m.body + rest, posted)
  {
    HeaderParses(m, rest, posted);
    var r := Complete(Reader(Head, Encode(m) + rest, posted));
    if Fits(m) {
      assert r.unread[|m.body|..] == rest && r.unread[..|m.body|] == m.body;
      assert Complete(r) == Reader(Head, rest, posted + [m]);
    }
  }

  /** A reader in state d has posted exactly the readable messages of ms after `posted`, and is ready
      for the next header unless an oversized message stopped it. */
  predicate Decoded(d: Reader, ms: seq<Msg>, posted: seq<Msg>) {
    && d.posted == posted + Readable(ms)
    && (d.pending == if |Readable(ms)| == |ms| then Head else Halted)
    && (|Readable(ms)| == |ms| ==> d.unread == [])
  }

  lemma ReadableUnfolds(m: Msg, rest: seq<Msg>)
    ensures Readable([m] + rest) == if Fits(m) then [m] + Readable(rest) else []
  {
    assert ([m] + rest)[1..] == rest;
  }

  lemma Regroup(a: seq<Msg>, m: Msg, b: seq<Msg>)
    ensures a + [m] + b == a + ([m] + b)
  {
  }

  lemma DecodedOneMore(d: Reader, m: Msg, rest: seq<Msg>, posted: seq<Msg>)
    requires Fits(m) && Decoded(d, rest, posted + [m])
    ensures Decoded(d, [m] + rest, posted)
  {
    ReadableUnfolds(m, rest);
    Regroup(posted, m, Readable(rest));
  }

  /** The decoder inverts the encoder. */
  lemma {:induction false} DecodeInvertsEncode(ms: seq<Msg>, posted: seq<Msg>)
    requires forall m :: m in ms ==> Sendable(m)
    ensures Decoded(Drain(Reader(Head, Wire(ms), posted)), ms, posted)
  {
    if ms != [] {
      var m, rest := ms[0], ms[1..];
      assert ms == [m] + rest;
      assert Wire(ms) == Encode(m) + Wire(rest);
      OneFrame(m, Wire(rest), posted);
      if Fits(m) {
        DecodeInvertsEncode(rest, posted + [m]);
        DecodedOneMore(Drain(Reader(Head, Wire(rest), posted + [m])), m, rest, posted);
      } else {
        ReadableUnfolds(m, rest);
      }
    }
  }

  lemma WireConcat(a: seq<Msg>, b: seq<Msg>)
    requires forall m :: m in a + b ==> Sendable(m)
    ensures (forall m :: m in a ==> Sendable(m)) && (forall m :: m in b ==> Sendable(m))
    ensures Wire(a + b) == Wire(a) + Wire(b)
  {
    assert forall m :: m in a ==> m in a + b;
    assert forall m :: m in b ==> m in a + b;
    if a == [] {
      assert a + b == b;
    } else {
      assert (a + b)[1..] == a[1..] + b;
      WireConcat(a[1..], b);
    }
  }

  /** What a reader posts from a prefix of a stream is a prefix of what it posts from the stream. */
  lemma PrefixPostsPrefix(r: Reader, part: seq<byte>, whole: seq<byte>)
    requires part <= whole
    ensures Drain(Receive(r, part)).posted <= Drain(Receive(r, whole)).posted
  {
    var rest := whole[|part|..];
    assert whole == part + rest;
    assert Receive(Receive(r, part), rest) == Receive(r, whole);
    SegmentationIsIrrelevant(Receive(r, part), rest);
  }
}
