/**
 * How large the data frames of a stream are on the wire. The packet size is computed at start-up
 * from a frame around a single byte, so the length prefixes of a full packet are wider than the
 * ones accounted for; what saves the limit is the room reserved for the widest stream ID.
 */
module FrameSize {
  import opened Wrappers
  import opened Packets

  // ----- Protocol buffer wire encoding -----

  function Varint(n: nat): (r: Bytes) {
    if n < 128 then [n as Byte] else [(128 + n % 128) as Byte] + Varint(n / 128)
  }

  // Field numbers here are small enough for one-byte tags.
  function Tag(field: nat, wireType: nat): Bytes {
    Varint(field * 8 + wireType)
  }

  // Proto3 omits scalar fields that hold their default.
  function BoolField(field: nat, b: bool): Bytes {
    if b then Tag(field, 0) + [1] else []
  }

  function UintField(field: nat, n: nat): Bytes {
    if n == 0 then [] else Tag(field, 0) + Varint(n)
  }

  function BytesField(field: nat, data: Bytes): Bytes {
    if data == [] then [] else MessageField(field, data)
  }

  function MessageField(field: nat, body: Bytes): Bytes {
    Tag(field, 2) + Varint(|body|) + body
  }

  function PacketBody(p: Packet): Bytes {
    BytesField(1, p.data) + BoolField(2, p.eom)
  }

  function RequestMessageBody(m: RequestMessage): Bytes {
    BoolField(1, m.hasMessage) + MessageField(2, PacketBody(m.packet)) + BoolField(3, m.eos)
  }

  function RequestFrame(id: nat, m: RequestMessage): Bytes {
    MessageField(1, UintField(1, id)) + MessageField(3, RequestMessageBody(m))
  }

  function ResponseFrame(id: nat, p: Packet): Bytes {
    MessageField(1, UintField(1, id)) + MessageField(3, MessageField(1, PacketBody(p)))
  }

  // ----- The packet sizes -----

  const MaxDataChannelSize: nat := 65535
  const MaxUint64: nat := 0xFFFF_FFFF_FFFF_FFFF

  // maxRequestMessagePacketDataSize and maxResponseMessagePacketDataSize.
  function RequestPacketSize(): (n: nat)
    ensures n == 65509
  {
    Overheads();
    MaxDataChannelSize - |RequestFrame(MaxUint64, RequestMessage(true, Packet([0], true), true))|
  }

  function ResponsePacketSize(): (n: nat)
    ensures n == 65513
  {
    Overheads();
    MaxDataChannelSize - |ResponseFrame(MaxUint64, Packet([0], true))|
  }

  // ----- Sizes -----

  function Pow128(k: nat): nat {
    if k == 0 then 1 else 128 * Pow128(k - 1)
  }

  // A number takes at most k bytes exactly when it is below 128 to the k.
  lemma {:induction false} VarintWidth(n: nat, k: nat)
    requires k > 0
    ensures |Varint(n)| <= k <==> n < Pow128(k)
    decreases k
  {
    if k == 1 {
      assert Pow128(1) == 128;
    } else {
      Pow128Grows(k);
      if n >= 128 {
        VarintWidth(n / 128, k - 1);
      }
    }
  }

  lemma {:induction false} Pow128Grows(k: nat)
    requires k > 0
    ensures Pow128(k) >= 128
  {
    if k > 1 { Pow128Grows(k - 1); }
  }

  lemma Widths(n: nat)
    ensures |Varint(n)| >= 1
    ensures n < 128 <==> |Varint(n)| <= 1
    ensures n < 0x4000 <==> |Varint(n)| <= 2
    ensures n < 0x20_0000 <==> |Varint(n)| <= 3
    ensures n < 0x8_0000_0000 <==> |Varint(n)| <= 5
    ensures n <= MaxUint64 ==> |Varint(n)| <= 10
  {
    assert Pow128(1) == 128;
    assert Pow128(2) == 0x4000;
    assert Pow128(3) == 0x20_0000;
    assert Pow128(5) == 0x8_0000_0000 by { assert Pow128(4) == 0x1000_0000; }
    assert Pow128(10) == Pow128(5) * Pow128(5) by {
      assert Pow128(6) == 128 * Pow128(5) && Pow128(7) == 128 * Pow128(6);
      assert Pow128(8) == 128 * Pow128(7) && Pow128(9) == 128 * Pow128(8);
    }
    VarintWidth(n, 1);
    VarintWidth(n, 2);
    VarintWidth(n, 3);
    VarintWidth(n, 5);
    VarintWidth(n, 10);
  }

  lemma MessageFieldSize(field: nat, body: Bytes)
    requires 1 <= field <= 4
    ensures |MessageField(field, body)| == 1 + |Varint(|body|)| + |body|
  {
    Widths(field * 8 + 2);
  }

  lemma BoolFieldSize(field: nat, b: bool)
    requires 1 <= field <= 4
    ensures |BoolField(field, b)| == if b then 2 else 0
  {
    Widths(field * 8);
  }

  // The stream part: its ID needs as many bytes as its varint, plus four.
  function StreamSize(id: nat): nat {
    if id == 0 then 2 else 3 + |Varint(id)|
  }

  lemma StreamFieldSize(id: nat)
    requires id <= MaxUint64
    ensures |MessageField(1, UintField(1, id))| == StreamSize(id) <= 13
  {
    Widths(8);
    Widths(id);
    MessageFieldSize(1, UintField(1, id));
    Widths(|UintField(1, id)|);
  }

  function WithPrefix(n: nat): nat {
    1 + |Varint(n)| + n
  }

  function PacketSize(n: nat, eom: bool): nat {
    (if n == 0 then 0 else WithPrefix(n)) + (if eom then 2 else 0)
  }

  lemma RequestFrameSize(id: nat, m: RequestMessage)
    requires id <= MaxUint64
    ensures |RequestFrame(id, m)| ==
            var marks := (if m.hasMessage then 2 else 0) + (if m.eos then 2 else 0);
            StreamSize(id) + WithPrefix(WithPrefix(PacketSize(|m.packet.data|, m.packet.eom)) + marks)
  {
    StreamFieldSize(id);
    MessageFieldSize(1, m.packet.data);
    BoolFieldSize(2, m.packet.eom);
    BoolFieldSize(1, m.hasMessage);
    BoolFieldSize(3, m.eos);
    MessageFieldSize(2, PacketBody(m.packet));
    MessageFieldSize(3, RequestMessageBody(m));
  }

  lemma ResponseFrameSize(id: nat, p: Packet)
    requires id <= MaxUint64
    ensures |ResponseFrame(id, p)| == StreamSize(id) + WithPrefix(WithPrefix(PacketSize(|p.data|, p.eom)))
  {
    StreamFieldSize(id);
    MessageFieldSize(1, p.data);
    BoolFieldSize(2, p.eom);
    MessageFieldSize(1, PacketBody(p));
    MessageFieldSize(3, MessageField(1, PacketBody(p)));
  }

  lemma Overheads()
    ensures |RequestFrame(MaxUint64, RequestMessage(true, Packet([0], true), true))| == 26
    ensures |ResponseFrame(MaxUint64, Packet([0], true))| == 22
  {
    RequestFrameSize(MaxUint64, RequestMessage(true, Packet([0], true), true));
    ResponseFrameSize(MaxUint64, Packet([0], true));
    StreamFieldSize(MaxUint64);
    VarintWidth(MaxUint64, 9);
    Widths(MaxUint64);
    assert |Varint(MaxUint64)| == 10;
    Widths(1); Widths(5); Widths(7); Widths(11);
  }

  lemma {:induction false} SplitPacketsFit(data: Bytes, size: nat)
    requires size > 0
    ensures forall p :: p in Split(data, size) ==> |p.data| <= size
    decreases |data|
  {
    if |data| > size { SplitPacketsFit(data[size..], size); }
  }

  // ----- The results -----

  const Fits: nat := 0x8_0000_0000   // 2 to the 35: IDs below it need at most five bytes

  // The size of what follows the stream part, at worst.
  lemma RestFits(n: nat, marks: nat)
    requires n <= 65513 && marks <= 4
    ensures WithPrefix(WithPrefix(PacketSize(n, true)) + marks) <= n + 14 + marks
    ensures WithPrefix(WithPrefix(PacketSize(n, false)) + marks) <= n + 14 + marks
    ensures n >= 65509 ==> WithPrefix(WithPrefix(PacketSize(n, true)) + marks) == n + 14 + marks
  {
    Widths(n);
    Widths(PacketSize(n, true));
    Widths(PacketSize(n, false));
    Widths(WithPrefix(PacketSize(n, true)) + marks);
    Widths(WithPrefix(PacketSize(n, false)) + marks);
  }

  lemma RequestFrameFits(id: nat, f: RequestMessage)
    requires id <= MaxUint64 && |f.packet.data| <= RequestPacketSize()
    ensures |RequestFrame(id, f)| <= 65540
    ensures id < Fits ==> |RequestFrame(id, f)| <= MaxDataChannelSize
  {
    var marks := (if f.hasMessage then 2 else 0) + (if f.eos then 2 else 0);
    RequestFrameSize(id, f);
    StreamFieldSize(id);
    Widths(id);
    RestFits(|f.packet.data|, marks);
  }

  /** Every request frame of a write is at most 65540 bytes, and at most 65535 for IDs below 2^35. */
  lemma RequestFramesFit(id: nat, m: Option<Bytes>, eos: bool, f: RequestMessage)
    requires id <= MaxUint64 && f in Frames(m, eos, RequestPacketSize())
    ensures |RequestFrame(id, f)| <= 65540
    ensures id < Fits ==> |RequestFrame(id, f)| <= MaxDataChannelSize
  {
    var data := if m.Some? then m.value else [];
    SplitPacketsFit(data, RequestPacketSize());
    assert f.packet in Split(data, RequestPacketSize());
    RequestFrameFits(id, f);
  }

  lemma ResponseFrameFits(id: nat, p: Packet)
    requires id <= MaxUint64 && |p.data| <= ResponsePacketSize()
    ensures |ResponseFrame(id, p)| <= 65540
    ensures id < Fits ==> |ResponseFrame(id, p)| <= MaxDataChannelSize
  {
    ResponseFrameSize(id, p);
    StreamFieldSize(id);
    Widths(id);
    RestFits(|p.data|, 0);
  }

  /** Every response frame of a message is at most 65540 bytes, and at most 65535 for IDs below 2^35. */
  lemma ResponseFramesFit(id: nat, message: Bytes, p: Packet)
    requires id <= MaxUint64 && p in Split(message, ResponsePacketSize())
    ensures |ResponseFrame(id, p)| <= 65540
    ensures id < Fits ==> |ResponseFrame(id, p)| <= MaxDataChannelSize
  {
    SplitPacketsFit(message, ResponsePacketSize());
    ResponseFrameFits(id, p);
  }

  ghost predicate RequestsFit(id: nat) {
    forall m, eos, f :: f in Frames(m, eos, RequestPacketSize()) ==> |RequestFrame(id, f)| <= MaxDataChannelSize
  }

  ghost predicate ResponsesFit(id: nat) {
    forall message, p :: p in Split(message, ResponsePacketSize()) ==> |ResponseFrame(id, p)| <= MaxDataChannelSize
  }

  /** The bound on the ID is exact in both directions: the frames of every message fit the channel if
      and only if the stream's ID is below 2^35. */
  lemma FramesFitIffSmallId(id: nat)
    requires id <= MaxUint64
    ensures RequestsFit(id) <==> id < Fits
    ensures ResponsesFit(id) <==> id < Fits
  {
    RequestsFitIff(id);
    ResponsesFitIff(id);
  }

  lemma ResponsesFitIff(id: nat)
    requires id <= MaxUint64
    ensures ResponsesFit(id) <==> id < Fits
  {
    if id < Fits {
      forall message, p | p in Split(message, ResponsePacketSize())
        ensures |ResponseFrame(id, p)| <= MaxDataChannelSize
      {
        ResponseFramesFit(id, message, p);
      }
    } else {
      var data: Bytes := seq(ResponsePacketSize(), _ => 0);
      var p := Packet(data, true);
      assert Split(data, ResponsePacketSize())[0] == p;
      ResponseFrameSize(id, p);
      Widths(id);
      RestFits(|data|, 0);
    }
  }

  lemma RequestsFitIff(id: nat)
    requires id <= MaxUint64
    ensures RequestsFit(id) <==> id < Fits
  {
    if id < Fits {
      forall m, eos, f | f in Frames(m, eos, RequestPacketSize())
        ensures |RequestFrame(id, f)| <= MaxDataChannelSize
      {
        RequestFramesFit(id, m, eos, f);
      }
    } else {
      var data: Bytes := seq(RequestPacketSize(), _ => 0);
      var f := RequestMessage(true, Packet(data, true), true);
      assert Frames(Some(data), true, RequestPacketSize())[0] == f;
      RequestFrameSize(id, f);
      Widths(id);
      RestFits(|data|, 4);
    }
  }

  // ----- Reading frames -----

  // A field as read off the wire: a number, or bytes with their length in front.
  datatype Field = Num(field: nat, n: nat) | Bin(field: nat, body: Bytes)

  function ReadVarint(b: Bytes): (r: Option<(nat, Bytes)>)
    ensures r.Some? ==> |r.value.1| < |b|
  {
    if b == [] then None
    else if b[0] < 128 then Some((b[0] as nat, b[1..]))
    else
      var more := ReadVarint(b[1..]);
      if more.None? then None else Some((b[0] as nat - 128 + 128 * more.value.0, more.value.1))
  }

  // The fields of a message, in order; None if it is malformed.
  function ReadFields(b: Bytes): Option<seq<Field>>
    decreases |b|
  {
    if b == [] then Some([])
    else
      var tag := ReadVarint(b);
      if tag.None? then None
      else
        var value := ReadVarint(tag.value.1);
        var field := tag.value.0 / 8;
        if value.None? then None
        else if tag.value.0 % 8 == 0 then Prefixed(Num(field, value.value.0), ReadFields(value.value.1))
        else if tag.value.0 % 8 != 2 || value.value.0 > |value.value.1| then None
        else
          var (n, rest) := value.value;
          Prefixed(Bin(field, rest[..n]), ReadFields(rest[n..]))
  }

  function Prefixed(f: Field, rest: Option<seq<Field>>): Option<seq<Field>> {
    if rest.None? then None else Some([f] + rest.value)
  }

  lemma {:induction false} VarintReads(n: nat, rest: Bytes)
    ensures Varint(n) != [] && ReadVarint(Varint(n) + rest) == Some((n, rest))
    decreases n
  {
    var b := Varint(n) + rest;
    if n < 128 {
      assert b[1..] == rest;
    } else {
      VarintReads(n / 128, rest);
      assert b[1..] == Varint(n / 128) + rest;
    }
  }

  // One field off the front.
  lemma FieldReads(tag: nat, v: nat, rest: Bytes)
    ensures var b := Varint(tag) + (Varint(v) + rest);
            && (tag % 8 == 0 ==> ReadFields(b) == Prefixed(Num(tag / 8, v), ReadFields(rest)))
            && (tag % 8 == 2 && v <= |rest| ==>
                 ReadFields(b) == Prefixed(Bin(tag / 8, rest[..v]), ReadFields(rest[v..])))
  {
    VarintReads(tag, Varint(v) + rest);
    VarintReads(v, rest);
  }

  lemma TagOf(field: nat)
    ensures field * 8 / 8 == field && field * 8 % 8 == 0 && (field * 8 + 2) / 8 == field && (field * 8 + 2) % 8 == 2
  {
  }

  lemma NumReads(field: nat, n: nat, rest: Bytes)
    ensures ReadFields(Tag(field, 0) + Varint(n) + rest) == Prefixed(Num(field, n), ReadFields(rest))
  {
    TagOf(field);
    FieldReads(field * 8, n, rest);
    Assoc(Tag(field, 0), Varint(n), rest);
  }

  lemma BodyReads(tag: nat, body: Bytes, rest: Bytes)
    requires tag % 8 == 2
    ensures ReadFields(Varint(tag) + (Varint(|body|) + (body + rest))) == Prefixed(Bin(tag / 8, body), ReadFields(rest))
  {
    FieldReads(tag, |body|, body + rest);
    assert (body + rest)[..|body|] == body && (body + rest)[|body|..] == rest;
  }

  lemma Regroup(a: Bytes, b: Bytes, c: Bytes, d: Bytes)
    ensures a + b + c + d == a + (b + (c + d))
  {
    Assoc(a + b, c, d);
    Assoc(a, b, c + d);
  }

  lemma BinReads(field: nat, body: Bytes, rest: Bytes)
    ensures ReadFields(MessageField(field, body) + rest) == Prefixed(Bin(field, body), ReadFields(rest))
  {
    TagOf(field);
    Regroup(Tag(field, 2), Varint(|body|), body, rest);
    BodyReads(field * 8 + 2, body, rest);
  }

  lemma BoolReads(field: nat, b: bool, rest: Bytes)
    ensures ReadFields(BoolField(field, b) + rest) ==
            if b then Prefixed(Num(field, 1), ReadFields(rest)) else ReadFields(rest)
  {
    if b {
      NumReads(field, 1, rest);
    } else {
      assert [] + rest == rest;
    }
  }

  // A field at the end of a message.
  lemma LastReads(b: Bytes, f: Field)
    requires ReadFields(b + []) == Prefixed(f, ReadFields([]))
    ensures ReadFields(b) == Some([f])
  {
    assert b + [] == b && [f] + [] == [f];
  }

  // The fields a stream, a packet and a request message are written as.
  function StreamFields(id: nat): seq<Field> {
    if id == 0 then [] else [Num(1, id)]
  }

  function PacketFields(p: Packet): seq<Field> {
    (if p.data == [] then [] else [Bin(1, p.data)]) + (if p.eom then [Num(2, 1)] else [])
  }

  function RequestFields(m: RequestMessage): seq<Field> {
    (if m.hasMessage then [Num(1, 1)] else []) + ([Bin(2, PacketBody(m.packet))] + if m.eos then [Num(3, 1)] else [])
  }

  lemma StreamReads(id: nat)
    ensures ReadFields(UintField(1, id)) == Some(StreamFields(id))
  {
    if id != 0 {
      NumReads(1, id, []);
      LastReads(UintField(1, id), Num(1, id));
    }
  }

  lemma FlagReads(field: nat, b: bool)
    ensures ReadFields(BoolField(field, b)) == Some(if b then [Num(field, 1)] else [])
  {
    BoolReads(field, b, []);
    if b { LastReads(BoolField(field, b), Num(field, 1)); }
  }

  lemma PacketReads(p: Packet)
    ensures ReadFields(PacketBody(p)) == Some(PacketFields(p))
  {
    var eom := BoolField(2, p.eom);
    FlagReads(2, p.eom);
    var flag := if p.eom then [Num(2, 1)] else [];
    if p.data == [] {
      assert [] + eom == eom && [] + flag == flag;
    } else {
      BinReads(1, p.data, eom);
    }
  }

  lemma RequestBodyReads(m: RequestMessage)
    ensures ReadFields(RequestMessageBody(m)) == Some(RequestFields(m))
  {
    var has, packet, eos := BoolField(1, m.hasMessage), MessageField(2, PacketBody(m.packet)), BoolField(3, m.eos);
    FlagReads(3, m.eos);
    BinReads(2, PacketBody(m.packet), eos);
    BoolReads(1, m.hasMessage, packet + eos);
    Assoc(has, packet, eos);
    var rest := [Bin(2, PacketBody(m.packet))] + if m.eos then [Num(3, 1)] else [];
    assert [] + rest == rest;
  }

  lemma TwoReads(first: nat, a: Bytes, second: nat, b: Bytes)
    ensures ReadFields(MessageField(first, a) + MessageField(second, b)) == Some([Bin(first, a), Bin(second, b)])
  {
    BinReads(first, a, MessageField(second, b));
    BinReads(second, b, []);
    LastReads(MessageField(second, b), Bin(second, b));
    assert [Bin(first, a)] + [Bin(second, b)] == [Bin(first, a), Bin(second, b)];
  }

  // Taking a message apart again: the first field of a number counts, there being one, and an absent one has its
  // default.
  function NumOf(fields: seq<Field>, field: nat): nat {
    if fields == [] then 0
    else if fields[0].Num? && fields[0].field == field then fields[0].n
    else NumOf(fields[1..], field)
  }

  function BinOf(fields: seq<Field>, field: nat): Bytes {
    if fields == [] then []
    else if fields[0].Bin? && fields[0].field == field then fields[0].body
    else BinOf(fields[1..], field)
  }

  function PacketOf(fields: seq<Field>): Packet {
    Packet(BinOf(fields, 1), NumOf(fields, 2) == 1)
  }

  // A field in front: it counts for its own number, and for no other.
  lemma TakenFirst(f: Field, rest: seq<Field>, field: nat)
    ensures NumOf([f] + rest, field) == if f.Num? && f.field == field then f.n else NumOf(rest, field)
    ensures BinOf([f] + rest, field) == if f.Bin? && f.field == field then f.body else BinOf(rest, field)
  {
    assert ([f] + rest)[1..] == rest;
  }

  lemma FlagTaken(field: nat, b: bool, other: nat)
    ensures var f := if b then [Num(field, 1)] else [];
            NumOf(f, other) == (if b && other == field then 1 else 0) && BinOf(f, other) == []
  {
    TakenFirst(Num(field, 1), [], other);
    assert [Num(field, 1)] + [] == [Num(field, 1)];
  }

  lemma PacketTaken(p: Packet)
    ensures PacketOf(PacketFields(p)) == p
  {
    var eom := if p.eom then [Num(2, 1)] else [];
    FlagTaken(2, p.eom, 1);
    FlagTaken(2, p.eom, 2);
    TakenFirst(Bin(1, p.data), eom, 1);
    TakenFirst(Bin(1, p.data), eom, 2);
    assert [] + eom == eom;
  }

  lemma RequestTaken(m: RequestMessage)
    ensures var f := RequestFields(m);
            && NumOf(f, 1) == (if m.hasMessage then 1 else 0) && BinOf(f, 2) == PacketBody(m.packet)
            && NumOf(f, 3) == if m.eos then 1 else 0
  {
    var eos, packet := if m.eos then [Num(3, 1)] else [], Bin(2, PacketBody(m.packet));
    var rest := [packet] + eos;
    FlagTaken(3, m.eos, 1);
    FlagTaken(3, m.eos, 3);
    TakenFirst(packet, eos, 1);
    TakenFirst(packet, eos, 2);
    TakenFirst(packet, eos, 3);
    TakenFirst(Num(1, 1), rest, 1);
    TakenFirst(Num(1, 1), rest, 2);
    TakenFirst(Num(1, 1), rest, 3);
    assert [] + rest == rest;
  }

  // The stream ID and the message of a request frame, and of a response frame.
  function ReadRequest(b: Bytes): Option<(nat, RequestMessage)> {
    var frame := ReadFields(b);
    if frame.None? then None
    else
      var stream, body := ReadFields(BinOf(frame.value, 1)), ReadFields(BinOf(frame.value, 3));
      if stream.None? || body.None? then None
      else
        var packet := ReadFields(BinOf(body.value, 2));
        if packet.None? then None
        else
          Some((NumOf(stream.value, 1),
                RequestMessage(NumOf(body.value, 1) == 1, PacketOf(packet.value), NumOf(body.value, 3) == 1)))
  }

  function ReadResponse(b: Bytes): Option<(nat, Packet)> {
    var frame := ReadFields(b);
    if frame.None? then None
    else
      var stream, body := ReadFields(BinOf(frame.value, 1)), ReadFields(BinOf(frame.value, 3));
      if stream.None? || body.None? then None
      else
        var packet := ReadFields(BinOf(body.value, 1));
        if packet.None? then None else Some((NumOf(stream.value, 1), PacketOf(packet.value)))
  }

  lemma StreamTaken(id: nat)
    ensures NumOf(StreamFields(id), 1) == id
  {
  }

  lemma PairTaken(a: Bytes, b: Bytes)
    ensures BinOf([Bin(1, a), Bin(3, b)], 1) == a && BinOf([Bin(1, a), Bin(3, b)], 3) == b
  {
    assert [Bin(1, a), Bin(3, b)][1..] == [Bin(3, b)];
  }

  /** A data frame of a request, read with the wire format's own rules, gives back its stream ID and message. */
  lemma RequestReadBack(id: nat, m: RequestMessage)
    ensures ReadRequest(RequestFrame(id, m)) == Some((id, m))
  {
    TwoReads(1, UintField(1, id), 3, RequestMessageBody(m));
    PairTaken(UintField(1, id), RequestMessageBody(m));
    StreamReads(id);
    StreamTaken(id);
    RequestBodyReads(m);
    RequestTaken(m);
    PacketReads(m.packet);
    PacketTaken(m.packet);
  }

  /** And so does one of a response. */
  lemma ResponseReadBack(id: nat, p: Packet)
    ensures ReadResponse(ResponseFrame(id, p)) == Some((id, p))
  {
    var body := MessageField(1, PacketBody(p));
    TwoReads(1, UintField(1, id), 3, body);
    PairTaken(UintField(1, id), body);
    StreamReads(id);
    StreamTaken(id);
    BinReads(1, PacketBody(p), []);
    LastReads(body, Bin(1, PacketBody(p)));
    PacketReads(p);
    PacketTaken(p);
  }
}
