/**
 * Packetizing gRPC messages and putting them together again, for the Go and the TypeScript
 * sides of a stream.
 */
module Packets {
  import opened Wrappers

  newtype Byte = n: int | 0 <= n < 256
  type Bytes = seq<Byte>

  const MaxMessageSize: nat := 33554432   // 1 << 25, on both sides

  datatype Packet = Packet(data: Bytes, eom: bool)

  datatype RequestMessage = RequestMessage(hasMessage: bool, packet: Packet, eos: bool)

  // ----- Senders -----

  // The packets of one message: full ones, then a last one that alone is marked.
  function Split(data: Bytes, size: nat): seq<Packet>
    requires size > 0
  {
    if |data| <= size then [Packet(data, true)] else [Packet(data[..size], false)] + Split(data[size..], size)
  }

  // The request frames of one write; the end-of-stream mark is on every one of them.
  function Frames(m: Option<Bytes>, eos: bool, size: nat): seq<RequestMessage>
    requires size > 0
  {
    var packets := Split(if m.Some? then m.value else [], size);
    seq(|packets|, i requires 0 <= i < |packets| => RequestMessage(m.Some?, packets[i], eos))
  }

  // One round of a packet loop.
  lemma FramesUnfold(data: Bytes, eos: bool, size: nat)
    requires size > 0 && data != []
    ensures |data| <= size ==> Frames(Some(data), eos, size) == [RequestMessage(true, Packet(data, true), eos)]
    ensures |data| > size ==>
              Frames(Some(data), eos, size) ==
              [RequestMessage(true, Packet(data[..size], false), eos)] + Frames(Some(data[size..]), eos, size)
  {
  }

  lemma SplitUnfold(data: Bytes, size: nat)
    requires size > 0 && data != []
    ensures |data| <= size ==> Split(data, size) == [Packet(data, true)]
    ensures |data| > size ==> Split(data, size) == [Packet(data[..size], false)] + Split(data[size..], size)
  {
  }

  // The packets still to be sent.
  function Left(data: Bytes, size: nat): seq<Packet>
    requires size > 0
  {
    if data == [] then [] else Split(data, size)
  }

  function Data(packets: seq<Packet>): Bytes {
    if packets == [] then [] else packets[0].data + Data(packets[1..])
  }

  /** What the packets of a message are: together its data; all of the given size but the last, which is not
      larger and alone is marked. */
  lemma {:induction false} SplitMeans(data: Bytes, size: nat)
    requires size > 0
    ensures Split(data, size) != [] && Data(Split(data, size)) == data
    ensures forall i :: 0 <= i < |Split(data, size)| ==>
              var p, last := Split(data, size)[i], i == |Split(data, size)| - 1;
              p.eom == last && (if last then |p.data| <= size && (data != [] ==> p.data != []) else |p.data| == size)
    decreases |data|
  {
    var packets := Split(data, size);
    if |data| <= size {
      assert packets[1..] == [] && data + [] == data;
    } else {
      SplitMeans(data[size..], size);
      assert packets[1..] == Split(data[size..], size);
    }
  }

  /** The same for the frames of a write; each of them says whether there is a message, and bears the
      end-of-stream mark. */
  lemma FramesMean(m: Option<Bytes>, eos: bool, size: nat)
    requires size > 0
    ensures var frames, data := Frames(m, eos, size), if m.Some? then m.value else [];
            && |frames| == |Split(data, size)|
            && forall i :: 0 <= i < |frames| ==>
                 frames[i].packet == Split(data, size)[i] && frames[i].hasMessage == m.Some? && frames[i].eos == eos
  {
  }

  /** SendMsg of the server stream. */
  method SendMsg(message: Bytes, size: nat) returns (packets: seq<Packet>)
    requires size > 0
    ensures packets == Split(message, size)
  {
    var data := message;
    if |data| == 0 {
      return [Packet([], true)];
    }
    packets := [];
    while |data| != 0
      invariant packets + Left(data, size) == Split(message, size)
      decreases |data|
    {
      SplitUnfold(data, size);
      ghost var before, sent := data, packets;
      var amountToSend := size;
      if |data| < amountToSend {
        amountToSend := |data|;
      }
      var packet := Packet(data[..amountToSend], false);
      data := data[amountToSend..];
      if |data| == 0 {
        packet := packet.(eom := true);
        assert before[..amountToSend] == before;
      }
      packets := packets + [packet];
      assert Split(before, size) == [packet] + Left(data, size);
      Assoc(sent, [packet], Left(data, size));
    }
  }

  function LeftFrames(data: Bytes, eos: bool, size: nat): seq<RequestMessage>
    requires size > 0
  {
    if data == [] then [] else Frames(Some(data), eos, size)
  }

  /** writeMessage of the Go client: nil, empty and non-empty messages. */
  method WriteMessageGo(m: Option<Bytes>, eos: bool, size: nat) returns (frames: seq<RequestMessage>)
    requires size > 0
    ensures frames == Frames(m, eos, size)
  {
    var data := if m.Some? then m.value else [];
    if |data| == 0 {
      return [RequestMessage(m.Some?, Packet([], true), eos)];
    }
    frames := [];
    while |data| != 0
      invariant frames + LeftFrames(data, eos, size) == Frames(m, eos, size)
      decreases |data|
    {
      FramesUnfold(data, eos, size);
      ghost var before, sent := data, frames;
      var amountToSend := size;
      if |data| < amountToSend {
        amountToSend := |data|;
      }
      var packet := Packet(data[..amountToSend], false);
      data := data[amountToSend..];
      if |data| == 0 {
        packet := packet.(eom := true);
        assert before[..amountToSend] == before;
      }
      frames := frames + [RequestMessage(m.Some?, packet, eos)];
      assert Frames(Some(before), eos, size) == [RequestMessage(true, packet, eos)] + LeftFrames(data, eos, size);
      Assoc(sent, [RequestMessage(true, packet, eos)], LeftFrames(data, eos, size));
    }
  }

  /** writeMessage of the TypeScript client. */
  method WriteMessageTs(msgBytes: Option<Bytes>, eos: bool, size: nat) returns (frames: seq<RequestMessage>)
    requires size > 0
    ensures frames == Frames(msgBytes, eos, size)
  {
    if msgBytes.None? || |msgBytes.value| == 0 {
      return [RequestMessage(msgBytes.Some?, Packet([], true), eos)];
    }
    var rest := msgBytes.value;
    frames := [];
    while |rest| != 0
      invariant frames + LeftFrames(rest, eos, size) == Frames(msgBytes, eos, size)
      decreases |rest|
    {
      FramesUnfold(rest, eos, size);
      ghost var before, sent := rest, frames;
      var amountToSend := if |rest| < size then |rest| else size;
      var packet := Packet(rest[..amountToSend], false);
      rest := rest[amountToSend..];
      if |rest| == 0 {
        packet := packet.(eom := true);
        assert before[..amountToSend] == before;
      }
      frames := frames + [RequestMessage(true, packet, eos)];
      assert Frames(Some(before), eos, size) == [RequestMessage(true, packet, eos)] + LeftFrames(rest, eos, size);
      Assoc(sent, [RequestMessage(true, packet, eos)], LeftFrames(rest, eos, size));
    }
  }

  // ----- Receivers -----

  // processMessage of the Go base stream: the buffer after a packet, and the message it completes.
  function GoStep(buf: Bytes, p: Packet): (r: (Bytes, Option<Bytes>)) {
    if |p.data| == 0 && p.eom then (buf, Some([]))
    else if |p.data| + |buf| > MaxMessageSize then ([], None)
    else if p.eom then ([], Some(buf + p.data))
    else (buf + p.data, None)
  }

  // processPacketMessage of the TypeScript base stream, on the concatenation of its buffers.
  function TsStep(buf: Bytes, p: Packet): (r: (Bytes, Option<Bytes>)) {
    if |p.data| + |buf| > MaxMessageSize then ([], None)
    else if p.eom then ([], Some(buf + p.data))
    else (buf + p.data, None)
  }

  function Flatten(chunks: seq<Bytes>): Bytes {
    if chunks == [] then [] else Flatten(chunks[..|chunks| - 1]) + chunks[|chunks| - 1]
  }

  class GoReceiver {
    var packetBuf: Bytes

    constructor ()
      ensures packetBuf == []
    {
      packetBuf := [];
    }

    method ProcessMessage(msg: Packet) returns (message: Option<Bytes>)
      modifies this
      ensures (packetBuf, message) == GoStep(old(packetBuf), msg)
    {
      if |msg.data| == 0 && msg.eom {
        return Some([]);
      }
      if |msg.data| + |packetBuf| > MaxMessageSize {
        packetBuf := [];
        return None;
      }
      packetBuf := packetBuf + msg.data;
      if msg.eom {
        var data := packetBuf;
        packetBuf := [];
        return Some(data);
      }
      return None;
    }
  }

  class TsReceiver {
    var packetBuf: seq<Bytes>
    var packetBufSize: nat

    ghost predicate Valid()
      reads this
    {
      packetBufSize == |Flatten(packetBuf)|
    }

    constructor ()
      ensures Valid() && packetBuf == []
    {
      packetBuf, packetBufSize := [], 0;
    }

    method ProcessPacketMessage(msg: Packet) returns (message: Option<Bytes>)
      requires Valid()
      modifies this
      ensures Valid()
      ensures Flatten(packetBuf) == TsStep(old(Flatten(packetBuf)), msg).0
      ensures message == TsStep(old(Flatten(packetBuf)), msg).1
    {
      if |msg.data| + packetBufSize > MaxMessageSize {
        packetBuf, packetBufSize := [], 0;
        return None;
      }
      packetBuf := packetBuf + [msg.data];
      packetBufSize := packetBufSize + |msg.data|;
      assert packetBuf[..|packetBuf| - 1] == old(packetBuf);
      if msg.eom {
        var data := Join(packetBuf);
        packetBuf, packetBufSize := [], 0;
        return Some(data);
      }
      return None;
    }

    // The copy loop.
    static method Join(chunks: seq<Bytes>) returns (data: Bytes)
      ensures data == Flatten(chunks)
    {
      data := [];
      for i := 0 to |chunks|
        invariant data == Flatten(chunks[..i])
      {
        assert chunks[..i + 1][..i] == chunks[..i];
        data := data + chunks[i];
      }
      assert chunks[..|chunks|] == chunks;
    }
  }

  /** The two receivers agree on a packet exactly unless an empty last packet meets a non-empty
      buffer, where Go delivers an empty message and keeps the buffer. No sender emits that. */
  lemma ReceiversAgree(buf: Bytes, p: Packet)
    requires |buf| <= MaxMessageSize
    ensures GoStep(buf, p) == TsStep(buf, p) <==> !(p.data == [] && p.eom && buf != [])
  {
    if p.data == [] && p.eom {
      assert buf + p.data == buf;
    }
  }

  function Step(ts: bool, buf: Bytes, p: Packet): (Bytes, Option<Bytes>) {
    if ts then TsStep(buf, p) else GoStep(buf, p)
  }

  // Feeding packets to a receiver (`ts` selects which): its buffer afterwards, and its messages.
  function BufferAfter(ts: bool, buf: Bytes, packets: seq<Packet>): Bytes
    decreases |packets|
  {
    if packets == [] then buf else BufferAfter(ts, Step(ts, buf, packets[0]).0, packets[1..])
  }

  function Received(ts: bool, buf: Bytes, packets: seq<Packet>): seq<Bytes>
    decreases |packets|
  {
    if packets == [] then []
    else
      var (buf', message) := Step(ts, buf, packets[0]);
      (if message.Some? then [message.value] else []) + Received(ts, buf', packets[1..])
  }

  // Packets of a message arriving on a partly filled buffer complete exactly one message.
  lemma {:induction false} ReceiveSplit(ts: bool, buf: Bytes, data: Bytes, size: nat)
    requires size > 0 && |buf| + |data| <= MaxMessageSize && (data == [] ==> buf == [])
    ensures BufferAfter(ts, buf, Split(data, size)) == []
    ensures Received(ts, buf, Split(data, size)) == [buf + data]
    decreases |data|
  {
    var packets := Split(data, size);
    if |data| <= size {
      assert packets[1..] == [];
      if data == [] { assert buf + data == []; }
    } else {
      assert packets[1..] == Split(data[size..], size);
      ReceiveSplit(ts, buf + data[..size], data[size..], size);
      assert buf + data[..size] + data[size..] == buf + data;
    }
  }

  lemma {:induction false} ReceiveConcat(ts: bool, buf: Bytes, a: seq<Packet>, b: seq<Packet>)
    ensures BufferAfter(ts, buf, a + b) == BufferAfter(ts, BufferAfter(ts, buf, a), b)
    ensures Received(ts, buf, a + b) == Received(ts, buf, a) + Received(ts, BufferAfter(ts, buf, a), b)
    decreases |a|
  {
    if a == [] {
      assert a + b == b;
    } else {
      assert (a + b)[1..] == a[1..] + b;
      ReceiveConcat(ts, Step(ts, buf, a[0]).0, a[1..], b);
    }
  }

  // All packets of a list of messages, as SendMsg emits them one after another.
  function SplitAll(messages: seq<Bytes>, size: nat): seq<Packet>
    requires size > 0
  {
    if messages == [] then [] else Split(messages[0], size) + SplitAll(messages[1..], size)
  }

  /** Responses: any list of messages within the limit comes back exactly, from either receiver,
      whatever the packet size, and the buffer is empty again after each of them. */
  lemma {:induction false} ResponsesRoundTrip(ts: bool, messages: seq<Bytes>, size: nat)
    requires size > 0
    requires forall i :: 0 <= i < |messages| ==> |messages[i]| <= MaxMessageSize
    ensures BufferAfter(ts, [], SplitAll(messages, size)) == []
    ensures Received(ts, [], SplitAll(messages, size)) == messages
    decreases |messages|
  {
    if messages != [] {
      ReceiveSplit(ts, [], messages[0], size);
      assert [] + messages[0] == messages[0];
      ReceiveConcat(ts, [], Split(messages[0], size), SplitAll(messages[1..], size));
      ResponsesRoundTrip(ts, messages[1..], size);
    }
  }

  lemma {:induction false} ReceivedWithinLimit(ts: bool, buf: Bytes, packets: seq<Packet>)
    requires |buf| <= MaxMessageSize
    ensures forall m :: m in Received(ts, buf, packets) ==> |m| <= MaxMessageSize
    decreases |packets|
  {
    if packets != [] {
      ReceivedWithinLimit(ts, Step(ts, buf, packets[0]).0, packets[1..]);
    }
  }

  /** The limit is exact: a message comes back as it was sent if and only if it is within it. */
  lemma RoundTripIffWithinLimit(ts: bool, message: Bytes, size: nat)
    requires size > 0
    ensures Received(ts, [], Split(message, size)) == [message] <==> |message| <= MaxMessageSize
  {
    if |message| <= MaxMessageSize {
      ReceiveSplit(ts, [], message, size);
      assert [] + message == message;
    } else {
      ReceivedWithinLimit(ts, [], Split(message, size));
      assert message in [message];
    }
  }

  // ----- Messages over the limit -----

  // What arrives of a message: packets that together are over the limit are dropped up to the one that exceeds
  // it, and the rest is taken for a message of its own.
  function Arrives(message: Bytes, size: nat): Option<Bytes>
    requires size > 0
    decreases |message|
  {
    var dropped := MaxMessageSize / size * size + size;
    if |message| <= MaxMessageSize then Some(message)
    else if |message| <= dropped then None
    else Arrives(message[dropped..], size)
  }

  // Filling up a buffer that has room for m more packets.
  lemma {:induction false} Overflows(ts: bool, buf: Bytes, data: Bytes, size: nat, m: nat)
    requires size > 0 && |buf| + |data| > MaxMessageSize
    requires m * size <= MaxMessageSize - |buf| < m * size + size
    ensures var dropped := m * size + size;
            if |data| <= dropped then
              Received(ts, buf, Split(data, size)) == [] && BufferAfter(ts, buf, Split(data, size)) == []
            else
              && Received(ts, buf, Split(data, size)) == Received(ts, [], Split(data[dropped..], size))
              && BufferAfter(ts, buf, Split(data, size)) == BufferAfter(ts, [], Split(data[dropped..], size))
    decreases m
  {
    var packets := Split(data, size);
    if |data| <= size {
      assert packets[1..] == [];
      assert |data| <= m * size + size;
    } else {
      assert packets[1..] == Split(data[size..], size);
      if m > 0 {
        assert (m - 1) * size + size == m * size;
        Overflows(ts, buf + data[..size], data[size..], size, m - 1);
        if |data| > m * size + size {
          assert data[size..][m * size..] == data[m * size + size..];
        }
      }
    }
  }

  /** Exactly what either receiver makes of a message of any size: the whole message within the limit, and beyond
      it only an end of the message, delivered as if it were one, or nothing. The buffer is empty afterwards. */
  lemma {:induction false} ReceivedExactly(ts: bool, message: Bytes, size: nat)
    requires size > 0
    ensures Received(ts, [], Split(message, size)) ==
            if Arrives(message, size).Some? then [Arrives(message, size).value] else []
    ensures BufferAfter(ts, [], Split(message, size)) == []
    decreases |message|
  {
    if |message| <= MaxMessageSize {
      ReceiveSplit(ts, [], message, size);
      assert [] + message == message;
    } else {
      var m := MaxMessageSize / size;
      assert m * size <= MaxMessageSize < m * size + size;
      Overflows(ts, [], message, size, m);
      if |message| > m * size + size {
        ReceivedExactly(ts, message[m * size + size..], size);
      }
    }
  }

  /** So a message that is over the limit by a packet and a byte arrives as its last byte. */
  lemma CutMessageArrives(ts: bool, message: Bytes, size: nat)
    requires 0 < size <= MaxMessageSize && MaxMessageSize % size == 0 && |message| == MaxMessageSize + size + 1
    ensures Received(ts, [], Split(message, size)) == [message[MaxMessageSize + size..]]
  {
    assert MaxMessageSize / size * size == MaxMessageSize;
    ReceivedExactly(ts, message, size);
  }

  // ----- Requests: messages and the end of the stream -----

  // The receiving half of a server stream. `delivered`: what was put on the message channel.
  datatype Server = Server(buf: Bytes, recvClosed: bool, delivered: seq<Bytes>)

  // processMessage of the server stream, when the handler keeps reading.
  function ServerStep(s: Server, f: RequestMessage): Server {
    if s.recvClosed then s
    else if f.hasMessage then
      var (buf', message) := GoStep(s.buf, f.packet);
      if message.None? then s.(buf := buf')
      else Server(buf', f.eos, s.delivered + [message.value])
    else s.(recvClosed := f.eos)
  }

  function ServerRun(s: Server, frames: seq<RequestMessage>): Server
    decreases |frames|
  {
    if frames == [] then s else ServerRun(ServerStep(s, frames[0]), frames[1..])
  }

  lemma {:induction false} ServerRunConcat(s: Server, a: seq<RequestMessage>, b: seq<RequestMessage>)
    ensures ServerRun(s, a + b) == ServerRun(ServerRun(s, a), b)
    decreases |a|
  {
    if a == [] {
      assert a + b == b;
    } else {
      assert (a + b)[1..] == a[1..] + b;
      ServerRunConcat(ServerStep(s, a[0]), a[1..], b);
    }
  }

  // The frames of one write, on a partly filled buffer; and before the last one nothing happens.
  lemma {:induction false} ServerGets(s: Server, data: Bytes, eos: bool, size: nat)
    requires size > 0 && !s.recvClosed && |s.buf| + |data| <= MaxMessageSize && (data == [] ==> s.buf == [])
    ensures ServerRun(s, Frames(Some(data), eos, size)) == Server([], eos, s.delivered + [s.buf + data])
    ensures forall n :: 0 <= n < |Frames(Some(data), eos, size)| ==>
              var s' := ServerRun(s, Frames(Some(data), eos, size)[..n]);
              !s'.recvClosed && s'.delivered == s.delivered
    decreases |data|
  {
    var frames := Frames(Some(data), eos, size);
    if |data| <= size {
      assert data == [] ==> s.buf + data == [];
    } else {
      var s1 := ServerStep(s, frames[0]);
      assert frames[1..] == Frames(Some(data[size..]), eos, size);
      ServerGets(s1, data[size..], eos, size);
      assert s1.buf + data[size..] == s.buf + data;
      forall n | 0 <= n < |frames|
        ensures var s' := ServerRun(s, frames[..n]); !s'.recvClosed && s'.delivered == s.delivered
      {
        if n > 0 {
          assert frames[..n][1..] == frames[1..][..n - 1];
        }
      }
    }
  }

  // A client's writes: messages, possibly nil, of which only the last may end the stream.
  datatype Write = Write(m: Option<Bytes>, eos: bool)

  function AllFrames(writes: seq<Write>, size: nat): seq<RequestMessage>
    requires size > 0
  {
    if writes == [] then [] else Frames(writes[0].m, writes[0].eos, size) + AllFrames(writes[1..], size)
  }

  function Messages(writes: seq<Write>): seq<Bytes> {
    if writes == [] then [] else (if writes[0].m.Some? then [writes[0].m.value] else []) + Messages(writes[1..])
  }

  lemma ServerGetsWrite(s: Server, w: Write, size: nat)
    requires size > 0 && s.buf == [] && !s.recvClosed && (w.m.Some? ==> |w.m.value| <= MaxMessageSize)
    ensures ServerRun(s, Frames(w.m, w.eos, size)).buf == []
    ensures ServerRun(s, Frames(w.m, w.eos, size)).recvClosed == w.eos
    ensures ServerRun(s, Frames(w.m, w.eos, size)).delivered == s.delivered + (if w.m.Some? then [w.m.value] else [])
  {
    if w.m.Some? {
      ServerGets(s, w.m.value, w.eos, size);
      assert [] + w.m.value == w.m.value;
    } else {
      assert Frames(w.m, w.eos, size) == [RequestMessage(false, Packet([], true), w.eos)];
    }
  }

  /** Requests: any list of optional messages within the limit is delivered exactly, whatever the
      packet size; between writes the buffer is empty, and the stream ends with the last write. */
  lemma {:induction false} RequestsRoundTrip(s: Server, writes: seq<Write>, size: nat)
    requires size > 0 && s.buf == [] && !s.recvClosed
    requires forall i :: 0 <= i < |writes| && writes[i].m.Some? ==> |writes[i].m.value| <= MaxMessageSize
    requires forall i :: 0 <= i < |writes| - 1 ==> !writes[i].eos
    ensures ServerRun(s, AllFrames(writes, size)).buf == []
    ensures ServerRun(s, AllFrames(writes, size)).recvClosed == (writes != [] && writes[|writes| - 1].eos)
    ensures ServerRun(s, AllFrames(writes, size)).delivered == s.delivered + Messages(writes)
    decreases |writes|
  {
    if writes != [] {
      var w, rest := writes[0], writes[1..];
      var frames := Frames(w.m, w.eos, size);
      var s1 := ServerRun(s, frames);
      ServerGetsWrite(s, w, size);
      assert ServerRun(s, AllFrames(writes, size)) == ServerRun(s1, AllFrames(rest, size)) by {
        ServerRunConcat(s, frames, AllFrames(rest, size));
      }
      if rest == [] {
        assert ServerRun(s1, []) == s1;
      } else {
        RequestsRoundTrip(s1, rest, size);
      }
      var head := if w.m.Some? then [w.m.value] else [];
      assert s.delivered + (head + Messages(rest)) == (s.delivered + head) + Messages(rest);
    }
  }

  /** After the end of the stream nothing that comes has any effect. */
  lemma {:induction false} NothingAfterEnd(s: Server, frames: seq<RequestMessage>)
    requires s.recvClosed
    ensures ServerRun(s, frames) == s
    decreases |frames|
  {
    if frames != [] {
      NothingAfterEnd(s, frames[1..]);
    }
  }

  /** The end of a stream takes effect only with the last packet of the message that carries it,
      although every one of its packets is marked. */
  lemma EndOnlyAfterLastPacket(s: Server, m: Bytes, size: nat, n: nat)
    requires size > 0 && s.buf == [] && !s.recvClosed && |m| <= MaxMessageSize
    requires n < |Frames(Some(m), true, size)|
    ensures !ServerRun(s, Frames(Some(m), true, size)[..n]).recvClosed
    ensures ServerRun(s, Frames(Some(m), true, size)).recvClosed
  {
    ServerGets(s, m, true, size);
  }
}
