/** WebSocket frames (section 5.2 of RFC 6455) as this server writes and parses them: single text or binary
    frames with lengths of 7 or 16 bits, with any masking key or none. */
module Frames {
  import opened ByteOrder
  import opened MaskWords
  import opened Masking

  const CONTINUATION_FRAME: Byte := 0x0
  const TEXT_FRAME: Byte := 0x1
  const BINARY_FRAME: Byte := 0x2
  const CLOSING_FRAME: Byte := 0x8
  const PING_FRAME: Byte := 0x9
  const PONG_FRAME: Byte := 0xA

  /** What the server always masks with. */
  const MASKING_KEY: Key := [0x12, 0x34, 0x56, 0x78]

  const MAX_SIZE: nat := 0xFFFF

  // ---------- writing ----------

  datatype KeyField = NoKey | WithKey(key: Key)

  /** A message in one frame; `long` if its length is written in two more bytes, as lengths above 125 have to be. */
  datatype Frame = Frame(opcode: Byte, payload: seq<Byte>, field: KeyField, long: bool)

  predicate Sendable(f: Frame) {
    (f.opcode == TEXT_FRAME || f.opcode == BINARY_FRAME) && |f.payload| <= MAX_SIZE && (|f.payload| > 125 ==> f.long)
  }

  function Head(opcode: Byte, size: nat, field: KeyField, long: bool): (r: seq<Byte>)
    requires size <= MAX_SIZE && (size > 125 ==> long)
    ensures |r| == 2 + (if long then 2 else 0) + (if field.WithKey? then 4 else 0)
  {
    var maskBit: Byte := if field.WithKey? then 0x80 else 0;
    [0x80 | opcode]
    + (if long then [126 | maskBit, ToByte(size / 0x100), ToByte(size % 0x100)] else [ToByte(size) | maskBit])
    + (if field.WithKey? then field.key else [])
  }

  /** A whole frame. */
  function Encode(f: Frame): seq<Byte>
    requires Sendable(f)
  {
    Head(f.opcode, |f.payload|, f.field, f.long) + (if f.field.WithKey? then Masked(f.payload, f.field.key, 0) else f.payload)
  }

  /** What `sendMsg2` writes: text frames with the shortest length, and its own key if it masks. */
  function ServerFrame(payload: seq<Byte>, useMask: bool): Frame {
    Frame(TEXT_FRAME, payload, if useMask then WithKey(MASKING_KEY) else NoKey, |payload| > 125)
  }

  // ---------- parsing ----------

  /** What the bytes at the parse position are: the start of a frame that is not complete or has an unknown
      opcode, at which parsing stops until more bytes arrive; something for which the connection is closed; a length that aborts the
      server; a control frame, which the loop neither handles nor skips; or a message and its frame's length. */
  datatype Next =
    | Stop
    | ExtensionOn
    | ContinuationOn
    | TooLong
    | Control
    | Message(payload: seq<Byte>, length: nat)

  predicate Known(opcode: Byte) {
    opcode == TEXT_FRAME || opcode == BINARY_FRAME || opcode == CLOSING_FRAME || opcode == PING_FRAME || opcode == PONG_FRAME
  }

  function HeaderSize(b1: Byte): nat {
    var n0 := ToNat(b1 & 0x7f);
    2 + (if n0 == 126 then 2 else 0) + (if n0 == 127 then 8 else 0) + (if b1 & 0x80 == 0x80 then 4 else 0)
  }

  function PayloadSize(input: seq<Byte>): nat
    requires |input| >= 2 && HeaderSize(input[1]) <= |input|
  {
    var n0 := ToNat(input[1] & 0x7f);
    if n0 == 126 then ToNat(input[2]) * 0x100 + ToNat(input[3]) else n0
  }

  function KeyAt(input: seq<Byte>): Key
    requires |input| >= 2 && input[1] & 0x80 == 0x80 && HeaderSize(input[1]) <= |input|
  {
    var i := HeaderSize(input[1]) - 4;
    input[i..i + 4]
  }

  function Unmasked(input: seq<Byte>): seq<Byte>
    requires |input| >= 2 && HeaderSize(input[1]) <= |input| && HeaderSize(input[1]) + PayloadSize(input) <= |input|
  {
    var data := input[HeaderSize(input[1])..HeaderSize(input[1]) + PayloadSize(input)];
    if input[1] & 0x80 == 0x80 then Masked(data, KeyAt(input), 0) else data
  }

  function ParseOne(input: seq<Byte>): (r: Next)
    ensures r.Message? ==> 2 <= r.length <= |input|
  {
    if |input| < 2 then Stop
    else if input[0] & 0x70 != 0 then ExtensionOn
    else if input[0] & 0x80 != 0x80 then ContinuationOn
    else if !Known(input[0] & 0x0F) then Stop
    else if |input| < HeaderSize(input[1]) then Stop
    else if ToNat(input[1] & 0x7f) == 127 then TooLong
    else if |input| < HeaderSize(input[1]) + PayloadSize(input) then Stop
    else if input[0] & 0x0F == TEXT_FRAME || input[0] & 0x0F == BINARY_FRAME then
      Message(Unmasked(input), HeaderSize(input[1]) + PayloadSize(input))
    else Control
  }

  /** Why the loop of `onRecv` ended: it waits for more bytes, or it met one of the other cases of `Next`. */
  datatype Outcome = Outcome(messages: seq<seq<Byte>>, rest: seq<Byte>, end: Next)

  function ParseAll(buffer: seq<Byte>): Outcome {
    var next := ParseOne(buffer);
    if next.Message? then
      var later := ParseAll(buffer[next.length..]);
      Outcome([next.payload] + later.messages, later.rest, later.end)
    else Outcome([], buffer, next)
  }

  // ---------- chunks ----------

  /** Bytes that follow change nothing, unless parsing stopped to wait for them. */
  lemma ParseOneMore(buffer: seq<Byte>, chunk: seq<Byte>)
    requires !ParseOne(buffer).Stop?
    ensures ParseOne(buffer + chunk) == ParseOne(buffer)
  {
    var whole := buffer + chunk;
    assert whole[0] == buffer[0] && (|buffer| >= 2 ==> whole[1] == buffer[1]);
    if ParseOne(buffer).Message? || ParseOne(buffer).Control? {
      assert PayloadSize(whole) == PayloadSize(buffer);
      SameUnmasked(buffer, chunk);
    }
  }

  lemma SameSlice(front: seq<Byte>, back: seq<Byte>, i: nat, j: nat)
    requires i <= j <= |front|
    ensures (front + back)[i..j] == front[i..j]
  {
  }

  lemma SameUnmasked(buffer: seq<Byte>, chunk: seq<Byte>)
    requires |buffer| >= 2 && HeaderSize(buffer[1]) <= |buffer| && HeaderSize(buffer[1]) + PayloadSize(buffer) <= |buffer|
    ensures PayloadSize(buffer + chunk) == PayloadSize(buffer) && Unmasked(buffer + chunk) == Unmasked(buffer)
  {
    var h := HeaderSize(buffer[1]);
    SameSlice(buffer, chunk, h, h + PayloadSize(buffer));
    if buffer[1] & 0x80 == 0x80 {
      SameSlice(buffer, chunk, h - 4, h);
    }
  }

  /** Parsing what is left together with what comes next is parsing everything at once. */
  lemma {:induction false} ParseInTwo(buffer: seq<Byte>, chunk: seq<Byte>)
    ensures var first, all := ParseAll(buffer), ParseAll(buffer + chunk);
      if first.end.Stop? then
        var second := ParseAll(first.rest + chunk);
        all == Outcome(first.messages + second.messages, second.rest, second.end)
      else all.messages == first.messages && all.end == first.end
    decreases |buffer|
  {
    hide ParseOne;
    var next := ParseOne(buffer);
    if next.Message? {
      ParseOneMore(buffer, chunk);
      ParseInTwo(buffer[next.length..], chunk);
      assert (buffer + chunk)[next.length..] == buffer[next.length..] + chunk;
      var first := ParseAll(buffer);
      if first.end.Stop? {
        var later, second := ParseAll(buffer[next.length..]), ParseAll(first.rest + chunk);
        assert [next.payload] + (later.messages + second.messages) == first.messages + second.messages;
      }
    } else if !next.Stop? {
      ParseOneMore(buffer, chunk);
    } else {
      assert [] + ParseAll(buffer + chunk).messages == ParseAll(buffer + chunk).messages;
    }
  }

  /** The chunks of a connection, received one after the other, each parsed together with what is left. */
  function Receive(buffer: seq<Byte>, chunks: seq<seq<Byte>>): Outcome
    decreases |chunks|
  {
    if chunks == [] then Outcome([], buffer, Stop)
    else
      var first := ParseAll(buffer + chunks[0]);
      if !first.end.Stop? then first
      else
        var later := Receive(first.rest, chunks[1..]);
        Outcome(first.messages + later.messages, later.rest, later.end)
  }

  function Flatten(chunks: seq<seq<Byte>>): seq<Byte> {
    if chunks == [] then [] else chunks[0] + Flatten(chunks[1..])
  }

  /** The chunking makes no difference: the messages and the way the loop ends are those of the whole stream, and
      so is what is left if the loop waits for more. */
  lemma {:induction false} ChunksDoNotMatter(buffer: seq<Byte>, chunks: seq<seq<Byte>>)
    requires ParseAll(buffer) == Outcome([], buffer, Stop)
    ensures var all := ParseAll(buffer + Flatten(chunks));
      && Receive(buffer, chunks).messages == all.messages && Receive(buffer, chunks).end == all.end
      && (all.end.Stop? ==> Receive(buffer, chunks).rest == all.rest)
    decreases |chunks|
  {
    hide ParseOne;
    if chunks == [] {
      assert buffer + [] == buffer;
    } else {
      var first := ParseAll(buffer + chunks[0]);
      assert buffer + Flatten(chunks) == (buffer + chunks[0]) + Flatten(chunks[1..]);
      ParseInTwo(buffer + chunks[0], Flatten(chunks[1..]));
      if first.end.Stop? {
        RestWaits(buffer + chunks[0]);
        ChunksDoNotMatter(first.rest, chunks[1..]);
      }
    }
  }

  /** What is left when the loop waits is the start of one frame. */
  lemma {:induction false} RestWaits(buffer: seq<Byte>)
    requires ParseAll(buffer).end.Stop?
    ensures ParseAll(ParseAll(buffer).rest) == Outcome([], ParseAll(buffer).rest, Stop)
    decreases |buffer|
  {
    var next := ParseOne(buffer);
    if next.Message? {
      RestWaits(buffer[next.length..]);
    }
  }

  // ---------- round trip ----------

  lemma SizeByte(n: nat, masked: bool)
    requires n < 0x80
    ensures var b := ToByte(n) | (if masked then 0x80 else 0);
      ToNat(b & 0x7f) == n && (b & 0x80 == 0x80 <==> masked)
  {
    SizeBits(ToByte(n), masked);
    ByteBack(n);
    SmallByte(n);
  }

  lemma SizeBits(b: Byte, masked: bool)
    ensures var c := b | (if masked then 0x80 else 0);
      c & 0x7f == b & 0x7f && (b & 0x80 == 0 ==> (c & 0x80 == 0x80 <==> masked))
  {
  }

  lemma SmallByte(n: nat)
    requires n < 0x80
    ensures ToByte(n) & 0x7f == ToByte(n) && ToByte(n) & 0x80 == 0
  {
  }

  /** The first byte of a message. */
  lemma MessageByte(opcode: Byte)
    requires opcode == TEXT_FRAME || opcode == BINARY_FRAME
    ensures var b := 0x80 | opcode; b & 0x70 == 0 && b & 0x80 == 0x80 && b & 0x0F == opcode
  {
  }

  /** A frame that has been written is parsed as its payload, whatever its key, and whatever follows it. */
  lemma RoundTrip(f: Frame, tail: seq<Byte>)
    requires Sendable(f)
    ensures ParseOne(Encode(f) + tail) == Message(f.payload, |Encode(f)|)
  {
    hide Head, HeaderSize, PayloadSize, Masked, ToNat;
    var head, input := Head(f.opcode, |f.payload|, f.field, f.long), Encode(f) + tail;
    HeadParses(f.opcode, |f.payload|, f.field, f.long, input);
    FrameParts(f);
    MessageByte(f.opcode);
    var data := if f.field.WithKey? then Masked(f.payload, f.field.key, 0) else f.payload;
    assert input[|head|..|head| + |f.payload|] == data;
    if f.field.WithKey? {
      MaskedTwice(f.payload, f.field.key, 0);
    }
  }

  /** The first bytes of a header. */
  lemma HeadBytes(opcode: Byte, size: nat, field: KeyField, long: bool, head: seq<Byte>)
    requires size <= MAX_SIZE && (size > 125 ==> long) && head == Head(opcode, size, field, long)
    ensures head[0] == 0x80 | opcode && head[1] == ToByte(if long then 126 else size) | (if field.WithKey? then 0x80 else 0)
    ensures long ==> head[2] == ToByte(size / 0x100) && head[3] == ToByte(size % 0x100)
    ensures field.WithKey? ==> head[|head| - 4..] == field.key
  {
    ByteBack(126);
  }

  /** The header says what it was made from. */
  lemma HeadParses(opcode: Byte, size: nat, field: KeyField, long: bool, input: seq<Byte>)
    requires size <= MAX_SIZE && (size > 125 ==> long) && Head(opcode, size, field, long) <= input
    ensures input[0] == 0x80 | opcode && HeaderSize(input[1]) == |Head(opcode, size, field, long)| && PayloadSize(input) == size
    ensures input[1] & 0x80 == 0x80 <==> field.WithKey?
    ensures field.WithKey? ==> KeyAt(input) == field.key
    ensures ToNat(input[1] & 0x7f) != 127
  {
    hide Head, ToByte;
    var head := Head(opcode, size, field, long);
    HeadBytes(opcode, size, field, long, head);
    SizeByte(if long then 126 else size, field.WithKey?);
    if long {
      ByteBack(size / 0x100);
      ByteBack(size % 0x100);
    }
    assert input[0] == head[0] && input[1] == head[1];
    if field.WithKey? {
      assert input[|head| - 4..|head|] == head[|head| - 4..];
    }
  }

  // ---------- messages are the frames that can be sent ----------

  lemma FirstByteBack(b: Byte)
    requires b & 0x70 == 0 && b & 0x80 == 0x80
    ensures 0x80 | (b & 0x0F) == b
  {
  }

  lemma SecondByteBack(b: Byte)
    ensures (b & 0x7f) | (if b & 0x80 == 0x80 then 0x80 else 0) == b
  {
  }

  /** The length code is the low bits of the second byte. */
  lemma CodeBack(b: Byte)
    ensures ToNat(b & 0x7f) < 0x80
    ensures ToByte(ToNat(b & 0x7f)) | (if b & 0x80 == 0x80 then 0x80 else 0) == b
  {
    hide ToByte, ToNat;
    NumberBack(b & 0x7f);
    SecondByteBack(b);
    SmallNumber(b & 0x7f);
  }

  lemma SmallNumber(b: Byte)
    requires b < 0x80
    ensures ToNat(b) < 0x80
  {
  }

  lemma SizeBack(high: Byte, low: Byte)
    ensures var size := ToNat(high) * 0x100 + ToNat(low);
      size <= MAX_SIZE && ToByte(size / 0x100) == high && ToByte(size % 0x100) == low
  {
    hide ToNat, ToByte;
    NumberBack(high);
    NumberBack(low);
    TwoDigits(ToNat(high), ToNat(low));
  }

  lemma TwoDigits(high: nat, low: nat)
    requires high < 0x100 && low < 0x100
    ensures var size := high * 0x100 + low; size <= MAX_SIZE && size / 0x100 == high && size % 0x100 == low
  {
  }

  /** What the parser has found out about a message. */
  lemma MessageMeans(input: seq<Byte>)
    requires ParseOne(input).Message?
    ensures |input| >= 2 && HeaderSize(input[1]) <= |input| && HeaderSize(input[1]) + PayloadSize(input) <= |input|
    ensures input[0] & 0x70 == 0 && input[0] & 0x80 == 0x80 && ToNat(input[1] & 0x7f) != 127
    ensures input[0] & 0x0F == TEXT_FRAME || input[0] & 0x0F == BINARY_FRAME
    ensures ParseOne(input) == Message(Unmasked(input), HeaderSize(input[1]) + PayloadSize(input))
  {
    hide HeaderSize, PayloadSize, Unmasked, ToNat;
  }

  lemma CodeIs126(b: Byte)
    requires ToNat(b & 0x7f) == 126
    ensures 126 | (if b & 0x80 == 0x80 then 0x80 else 0) == b
  {
    hide ToByte, ToNat;
    NumberBack(b & 0x7f);
    ByteOf126();
    SecondByteBack(b);
  }

  lemma ByteOf126()
    ensures ToByte(126) == 126
  {
  }

  /** The key field as it was read. */
  function FieldOf(input: seq<Byte>): KeyField
    requires |input| >= 2 && HeaderSize(input[1]) <= |input|
  {
    if input[1] & 0x80 == 0x80 then WithKey(KeyAt(input)) else NoKey
  }

  function Opcode(b: Byte): Byte { b & 0x0F }

  function Code(b: Byte): nat { ToNat(b & 0x7f) }

  predicate IsMessageByte(b: Byte) { b & 0x70 == 0 && b & 0x80 == 0x80 }

  /** The first bytes of a header, without the key. */
  predicate Begins(opcode: Byte, size: nat, masked: bool, long: bool, head: seq<Byte>) {
    && |head| == (if long then 4 else 2) && 0x80 | opcode == head[0] && size <= MAX_SIZE && (size > 125 ==> long)
    && (if long || size > 125 then 126 else ToByte(size)) | (if masked then 0x80 else 0) == head[1]
    && (long ==> ToByte(size / 0x100) == head[2] && ToByte(size % 0x100) == head[3])
  }

  lemma HeadBegins(opcode: Byte, size: nat, field: KeyField, long: bool, head: seq<Byte>)
    requires Begins(opcode, size, field.WithKey?, long, head)
    ensures size <= MAX_SIZE && (size > 125 ==> long) && |head| == (if long then 4 else 2)
    ensures Head(opcode, size, field, long) == head + (if field.WithKey? then field.key else [])
  {
    hide ToByte;
  }

  lemma HeaderParts(input: seq<Byte>)
    requires |input| >= 2 && HeaderSize(input[1]) <= |input|
    ensures var first, field := if Code(input[1]) == 126 then 4 else 2, FieldOf(input);
      && (field.WithKey? <==> input[1] & 0x80 == 0x80)
      && (Code(input[1]) != 127 ==>
            HeaderSize(input[1]) == first + (if field.WithKey? then 4 else 0) && (field.WithKey? ==> field.key == input[first..first + 4]))
    ensures PayloadSize(input) == if Code(input[1]) == 126 then ToNat(input[2]) * 0x100 + ToNat(input[3]) else Code(input[1])
  {
    hide ToNat;
  }

  lemma LongBegins(b0: Byte, b1: Byte, b2: Byte, b3: Byte, masked: bool)
    requires IsMessageByte(b0) && Code(b1) == 126 && (masked <==> b1 & 0x80 == 0x80)
    ensures Begins(Opcode(b0), ToNat(b2) * 0x100 + ToNat(b3), masked, true, [b0, b1, b2, b3])
  {
    FirstByteBack(b0);
    CodeIs126(b1);
    SizeBack(b2, b3);
    hide ToNat, ToByte;
  }

  lemma ShortBegins(b0: Byte, b1: Byte, masked: bool)
    requires IsMessageByte(b0) && Code(b1) < 126 && (masked <==> b1 & 0x80 == 0x80)
    ensures Begins(Opcode(b0), Code(b1), masked, false, [b0, b1])
  {
    FirstByteBack(b0);
    CodeBack(b1);
    hide ToNat, ToByte;
  }

  /** The header of whatever is parsed as a message is one that can be written. */
  lemma HeadBack(input: seq<Byte>) returns (long: bool)
    requires |input| >= 2 && HeaderSize(input[1]) <= |input| && IsMessageByte(input[0]) && Code(input[1]) != 127
    ensures PayloadSize(input) <= MAX_SIZE && (PayloadSize(input) > 125 ==> long)
    ensures input[..HeaderSize(input[1])] == Head(Opcode(input[0]), PayloadSize(input), FieldOf(input), long)
  {
    SmallCode(input[1]);
    HeaderParts(input);
    hide HeaderSize, PayloadSize, Head, FieldOf, ToNat, Begins, IsMessageByte, Opcode, Code;
    long := Code(input[1]) == 126;
    var first := if long then 4 else 2;
    if long {
      LongBegins(input[0], input[1], input[2], input[3], FieldOf(input).WithKey?);
      assert input[..4] == [input[0], input[1], input[2], input[3]];
    } else {
      ShortBegins(input[0], input[1], FieldOf(input).WithKey?);
      assert input[..2] == [input[0], input[1]];
    }
    HeadBegins(Opcode(input[0]), PayloadSize(input), FieldOf(input), long, input[..first]);
    if FieldOf(input).WithKey? {
      assert input[..first + 4] == input[..first] + input[first..first + 4];
    }
  }

  lemma SmallCode(b: Byte)
    ensures Code(b) < 0x80
  {
    CodeBack(b);
  }

  /** So the messages that the server delivers are exactly those that some frame carries. */
  lemma MessageIff(input: seq<Byte>)
    ensures ParseOne(input).Message? <==> exists f: Frame :: Sendable(f) && Encode(f) <= input
  {
    if ParseOne(input).Message? {
      var f := FrameBack(input);
    }
    if f: Frame :| Sendable(f) && Encode(f) <= input {
      RoundTrip(f, input[|Encode(f)|..]);
      assert input == Encode(f) + input[|Encode(f)|..];
    }
  }

  /** Masking what was unmasked gives the bytes of the frame. */
  lemma DataBack(input: seq<Byte>)
    requires |input| >= 2 && HeaderSize(input[1]) <= |input| && HeaderSize(input[1]) + PayloadSize(input) <= |input|
    ensures var field, h := FieldOf(input), HeaderSize(input[1]);
      && |Unmasked(input)| == PayloadSize(input)
      && (if field.WithKey? then Masked(Unmasked(input), field.key, 0) else Unmasked(input)) == input[h..h + PayloadSize(input)]
  {
    hide HeaderSize, PayloadSize, Masked;
    var h := HeaderSize(input[1]);
    if input[1] & 0x80 == 0x80 {
      MaskedTwice(input[h..h + PayloadSize(input)], KeyAt(input), 0);
    }
  }

  lemma EncodesTo(f: Frame, head: seq<Byte>, data: seq<Byte>)
    requires Sendable(f) && head == Head(f.opcode, |f.payload|, f.field, f.long)
    requires data == if f.field.WithKey? then Masked(f.payload, f.field.key, 0) else f.payload
    ensures Encode(f) == head + data
  {
  }

  /** What `FrameBack` needs from a message. */
  lemma MessageFields(input: seq<Byte>)
    requires ParseOne(input).Message?
    ensures |input| >= 2 && HeaderSize(input[1]) <= |input| && HeaderSize(input[1]) + PayloadSize(input) <= |input|
    ensures IsMessageByte(input[0]) && Code(input[1]) != 127 && (Opcode(input[0]) == TEXT_FRAME || Opcode(input[0]) == BINARY_FRAME)
    ensures ParseOne(input) == Message(Unmasked(input), HeaderSize(input[1]) + PayloadSize(input))
  {
    MessageMeans(input);
  }

  lemma FrameBack(input: seq<Byte>) returns (f: Frame)
    requires ParseOne(input).Message?
    ensures Sendable(f) && Encode(f) <= input && ParseOne(input) == Message(f.payload, |Encode(f)|)
  {
    hide Head, HeaderSize, PayloadSize, Masked, ToNat, ParseOne, Unmasked, FieldOf, Encode, Opcode, Code, IsMessageByte;
    MessageFields(input);
    var long := HeadBack(input);
    DataBack(input);
    f := Frame(Opcode(input[0]), Unmasked(input), FieldOf(input), long);
    var h, n := HeaderSize(input[1]), PayloadSize(input);
    EncodesTo(f, input[..h], input[h..h + n]);
    assert input[..h + n] == input[..h] + input[h..h + n];
  }

  // ---------- streams of frames ----------

  predicate AllSendable(sent: seq<Frame>) { forall i :: 0 <= i < |sent| ==> Sendable(sent[i]) }

  function EncodeAll(sent: seq<Frame>): seq<Byte>
    requires AllSendable(sent)
  {
    if sent == [] then [] else Encode(sent[0]) + EncodeAll(sent[1..])
  }

  function Payloads(sent: seq<Frame>): seq<seq<Byte>> { seq(|sent|, i requires 0 <= i < |sent| => sent[i].payload) }

  lemma FrameParts(f: Frame)
    requires Sendable(f)
    ensures var frame, head := Encode(f), Head(f.opcode, |f.payload|, f.field, f.long);
      head <= frame && |frame| == |head| + |f.payload| && 2 <= |head|
  {
  }

  /** The start of a frame, without its end, makes the loop wait. */
  lemma PartialFrameWaits(f: Frame, part: seq<Byte>)
    requires Sendable(f) && part < Encode(f)
    ensures ParseOne(part) == Stop
  {
    hide Encode, Head, HeaderSize, PayloadSize, Unmasked;
    var frame, head := Encode(f), Head(f.opcode, |f.payload|, f.field, f.long);
    FrameParts(f);
    HeadParses(f.opcode, |f.payload|, f.field, f.long, frame);
    MessageByte(f.opcode);
    if |part| >= 2 {
      assert part[0] == frame[0] && part[1] == frame[1];
      if |part| >= |head| {
        assert head == part[..|head|];
        HeadParses(f.opcode, |f.payload|, f.field, f.long, part);
      }
    }
  }

  lemma {:induction false} StreamParses(sent: seq<Frame>, part: seq<Byte>)
    requires AllSendable(sent) && ParseOne(part) == Stop
    ensures ParseAll(EncodeAll(sent) + part) == Outcome(Payloads(sent), part, Stop)
    decreases |sent|
  {
    hide ParseOne, Encode;
    if sent == [] {
      assert EncodeAll(sent) + part == part;
    } else {
      var frame, tail := Encode(sent[0]), EncodeAll(sent[1..]) + part;
      RoundTrip(sent[0], tail);
      assert EncodeAll(sent) + part == frame + tail;
      assert (frame + tail)[|frame|..] == tail;
      StreamParses(sent[1..], part);
      assert Payloads(sent) == [sent[0].payload] + Payloads(sent[1..]);
    }
  }

  /** Text and binary frames, each with a key of its own or none, and perhaps the start of one more, received in any
      chunks: the callbacks get exactly the payloads, in order, and the unfinished frame stays in the buffer. */
  lemma FramesInAnyChunks(sent: seq<Frame>, last: Frame, part: seq<Byte>, chunks: seq<seq<Byte>>)
    requires AllSendable(sent) && Sendable(last) && part < Encode(last)
    requires Flatten(chunks) == EncodeAll(sent) + part
    ensures Receive([], chunks) == Outcome(Payloads(sent), part, Stop)
  {
    PartialFrameWaits(last, part);
    StreamParses(sent, part);
    assert [] + Flatten(chunks) == Flatten(chunks);
    ChunksDoNotMatter([], chunks);
  }

  /** The masked "Hello" of section 5.7 of RFC 6455. */
  lemma MaskedHello()
    ensures ParseOne([0x81, 0x85, 0x37, 0xfa, 0x21, 0x3d, 0x7f, 0x9f, 0x4d, 0x51, 0x58])
      == Message([0x48, 0x65, 0x6c, 0x6c, 0x6f], 11)
  {
    var f := Frame(TEXT_FRAME, [0x48, 0x65, 0x6c, 0x6c, 0x6f], WithKey([0x37, 0xfa, 0x21, 0x3d]), false);
    var frame: seq<Byte> := [0x81, 0x85, 0x37, 0xfa, 0x21, 0x3d, 0x7f, 0x9f, 0x4d, 0x51, 0x58];
    HelloBytes();
    assert Masked(f.payload, f.field.key, 0) == [0x7f, 0x9f, 0x4d, 0x51, 0x58];
    assert Encode(f) == frame;
    RoundTrip(f, []);
    assert frame + [] == frame;
  }

  lemma HelloBytes()
    ensures Xor(0x48, 0x37) == 0x7f && Xor(0x65, 0xfa) == 0x9f && Xor(0x6c, 0x21) == 0x4d && Xor(0x6c, 0x3d) == 0x51
    ensures Xor(0x6f, 0x37) == 0x58 && ToByte(5) | 0x80 == 0x85 && 0x80 | TEXT_FRAME == 0x81
  {
  }

  // ---------- where the parser departs from the protocol ----------

  /** A complete control frame, in bytes. */
  predicate IsControlFrame(input: seq<Byte>) {
    && |input| >= 2 && input[0] & 0xF0 == 0x80
    && (input[0] & 0x0F == CLOSING_FRAME || input[0] & 0x0F == PING_FRAME || input[0] & 0x0F == PONG_FRAME)
    && ToNat(input[1] & 0x7f) != 127
    && HeaderSize(input[1]) <= |input| && HeaderSize(input[1]) + PayloadSize(input) <= |input|
  }

  /** The bytes at which the loop neither delivers nor moves on are exactly the complete control frames. */
  lemma ControlExactly(input: seq<Byte>)
    ensures ParseOne(input).Control? <==> IsControlFrame(input)
  {
    if |input| >= 2 {
      HighBitsMean(input[0]);
    }
  }

  lemma HighBitsMean(b: Byte)
    ensures b & 0xF0 == 0x80 <==> b & 0x70 == 0 && b & 0x80 == 0x80
  {
  }

  /** The loop of `onRecv` between two rounds: the buffer, whose payloads are unmasked where they lie, the parse
      position, and the payloads delivered so far. */
  datatype Loop = Loop(buffer: seq<Byte>, parse: nat, delivered: seq<seq<Byte>>)

  /** The frame with its payload unmasked, and what follows it. */
  function InPlace(input: seq<Byte>): (r: seq<Byte>)
    requires |input| >= 2 && HeaderSize(input[1]) <= |input| && HeaderSize(input[1]) + PayloadSize(input) <= |input|
    ensures |r| == |input|
  {
    var h := HeaderSize(input[1]);
    input[..h] + Unmasked(input) + input[h + PayloadSize(input)..]
  }

  /** One round of the loop: a message is unmasked, delivered and passed; the payload of a ping is unmasked, and
      no control frame is passed.  In the other cases the loop is left. */
  function Round(l: Loop): (r: Loop)
    requires l.parse <= |l.buffer|
    ensures r.parse <= |r.buffer| == |l.buffer|
  {
    var front, input := l.buffer[..l.parse], l.buffer[l.parse..];
    var next := ParseOne(input);
    if next.Message? then Loop(front + InPlace(input), l.parse + next.length, l.delivered + [next.payload])
    else if next.Control? && input[0] & 0x0F == PING_FRAME then Loop(front + InPlace(input), l.parse, l.delivered)
    else l
  }

  function Rounds(l: Loop, n: nat): (r: Loop)
    requires l.parse <= |l.buffer|
    ensures r.parse <= |r.buffer| == |l.buffer|
    decreases n
  {
    if n == 0 then l else Rounds(Round(l), n - 1)
  }

  /** The loop is left at this position. */
  predicate Leaves(l: Loop)
    requires l.parse <= |l.buffer|
  {
    var next := ParseOne(l.buffer[l.parse..]);
    !next.Message? && !next.Control?
  }

  /** Unmasking a payload does not change what its header says. */
  lemma HeaderStays(input: seq<Byte>)
    requires |input| >= 2 && HeaderSize(input[1]) <= |input| && HeaderSize(input[1]) + PayloadSize(input) <= |input|
    ensures InPlace(input)[0] == input[0] && InPlace(input)[1] == input[1] && PayloadSize(InPlace(input)) == PayloadSize(input)
  {
    var h, r := HeaderSize(input[1]), InPlace(input);
    assert forall i :: 0 <= i < h ==> r[i] == input[i];
  }

  lemma ControlFrameStays(l: Loop)
    requires l.parse <= |l.buffer| && IsControlFrame(l.buffer[l.parse..])
    ensures var r := Round(l);
      && r.parse == l.parse && r.delivered == l.delivered && r.buffer[..r.parse] == l.buffer[..l.parse]
      && IsControlFrame(r.buffer[r.parse..])
  {
    var input := l.buffer[l.parse..];
    ControlExactly(input);
    if input[0] & 0x0F == PING_FRAME {
      HeaderStays(input);
      assert Round(l).buffer[l.parse..] == InPlace(input);
    }
  }

  /** A complete control frame is never passed: after any number of rounds the loop is at the same position, has
      delivered nothing more, and is still at a complete control frame. */
  lemma {:induction false} ControlFrameIsNeverPassed(l: Loop, n: nat)
    requires l.parse <= |l.buffer| && IsControlFrame(l.buffer[l.parse..])
    ensures var r := Rounds(l, n);
      && r.parse == l.parse && r.delivered == l.delivered && r.buffer[..r.parse] == l.buffer[..l.parse]
      && IsControlFrame(r.buffer[r.parse..]) && !Leaves(r)
    decreases n
  {
    hide IsControlFrame, Round;
    if n == 0 {
      ControlExactly(l.buffer[l.parse..]);
    } else {
      ControlFrameStays(l);
      ControlFrameIsNeverPassed(Round(l), n - 1);
    }
  }

  /** The loop ends if and only if the first frame that is not delivered is not a complete control frame. */
  lemma LoopEndsIff(buffer: seq<Byte>)
    ensures (exists n: nat :: Leaves(Rounds(Loop(buffer, 0, []), n))) <==> !ParseAll(buffer).end.Control?
  {
    var l := Loop(buffer, 0, []);
    assert l.buffer[l.parse..] == buffer;
    if ParseAll(buffer).end.Control? {
      forall n: nat ensures !Leaves(Rounds(l, n)) {
        EndlessFrom(l, n);
      }
    } else {
      var n := EndsFrom(l);
    }
  }

  lemma {:induction false} EndlessFrom(l: Loop, n: nat)
    requires l.parse <= |l.buffer| && ParseAll(l.buffer[l.parse..]).end.Control?
    ensures !Leaves(Rounds(l, n))
    decreases n
  {
    hide InPlace;
    var input := l.buffer[l.parse..];
    if ParseOne(input).Control? {
      ControlExactly(input);
      ControlFrameIsNeverPassed(l, n);
    } else if n > 0 {
      RestAfterMessage(l);
      EndlessFrom(Round(l), n - 1);
    }
  }

  lemma {:induction false} EndsFrom(l: Loop) returns (n: nat)
    requires l.parse <= |l.buffer| && !ParseAll(l.buffer[l.parse..]).end.Control?
    ensures Leaves(Rounds(l, n))
    decreases |l.buffer| - l.parse
  {
    hide InPlace;
    if ParseOne(l.buffer[l.parse..]).Message? {
      RestAfterMessage(l);
      n := EndsFrom(Round(l));
      n := n + 1;
    } else {
      n := 0;
    }
  }

  /** What follows a message is still as it was after the message has been unmasked. */
  lemma RestAfterMessage(l: Loop)
    requires l.parse <= |l.buffer| && ParseOne(l.buffer[l.parse..]).Message?
    ensures var r, next := Round(l), ParseOne(l.buffer[l.parse..]);
      && r.parse == l.parse + next.length <= |l.buffer|
      && r.buffer[r.parse..] == l.buffer[l.parse..][next.length..] == l.buffer[r.parse..]
  {
    hide Unmasked, HeaderSize, PayloadSize;
    var input := l.buffer[l.parse..];
    assert InPlace(input)[ParseOne(input).length..] == input[ParseOne(input).length..];
  }

  /** For example an empty ping: two bytes that keep the loop busy for ever. */
  lemma EmptyPingSpins(n: nat)
    ensures var ping: seq<Byte> := [0x89, 0x00];
      IsControlFrame(ping) && Rounds(Loop(ping, 0, []), n).parse == 0 && !Leaves(Rounds(Loop(ping, 0, []), n))
  {
    var ping: seq<Byte> := [0x89, 0x00];
    EmptyPing();
    var l := Loop(ping, 0, []);
    assert l.buffer[l.parse..] == ping;
    ControlFrameIsNeverPassed(l, n);
  }

  lemma EmptyPing()
    ensures var ping: seq<Byte> := [0x89, 0x00]; IsControlFrame(ping)
  {
    var b: Byte := 0x89;
    assert b & 0xF0 == 0x80 && b & 0x0F == PING_FRAME;
    var c: Byte := 0x00;
    assert c & 0x7f == 0 && c & 0x80 == 0;
    assert ToNat(0) == 0;
  }

  /** A whole message, as far as its first byte says, with an opcode that the server does not know. */
  predicate UnknownOpcode(input: seq<Byte>) {
    input != [] && input[0] & 0xF0 == 0x80 && !Known(input[0] & 0x0F)
  }

  /** Whatever arrives, the loop stops here without delivering or closing anything. */
  ghost predicate WaitsForEver(input: seq<Byte>) { forall more: seq<Byte> :: ParseOne(input + more).Stop? }

  /** Bytes make the loop wait for ever if and only if they begin with an unknown opcode; otherwise some bytes
      that can follow make it go on. */
  lemma WaitsForEverIff(input: seq<Byte>)
    ensures WaitsForEver(input) <==> UnknownOpcode(input)
  {
    if UnknownOpcode(input) {
      forall more: seq<Byte> ensures ParseOne(input + more).Stop? {
        UnknownStops(input + more);
      }
    } else {
      var more := GoesOn(input);
      assert !ParseOne(input + more).Stop?;
    }
  }

  lemma UnknownStops(input: seq<Byte>)
    requires UnknownOpcode(input)
    ensures ParseOne(input).Stop?
  {
    HighBits(input[0]);
  }

  lemma GoesOn(input: seq<Byte>) returns (more: seq<Byte>)
    requires !UnknownOpcode(input)
    ensures !ParseOne(input + more).Stop?
  {
    var fill: seq<Byte> := seq(14 + MAX_SIZE, _ => 0);
    more := if input == [] then [0xF0] + fill else fill;
    LongEnough(input + more);
  }

  lemma LongEnough(input: seq<Byte>)
    requires |input| >= 14 + MAX_SIZE && !UnknownOpcode(input)
    ensures !ParseOne(input).Stop?
  {
    HighBitsMean(input[0]);
    hide HeaderSize, ToNat;
    SmallHeader(input[1]);
    if ToNat(input[1] & 0x7f) != 127 {
      SmallPayload(input);
    }
  }

  lemma SmallHeader(b1: Byte)
    ensures HeaderSize(b1) <= 14 && (ToNat(b1 & 0x7f) == 126 ==> HeaderSize(b1) >= 4)
  {
  }

  lemma SmallPayload(input: seq<Byte>)
    requires |input| >= 14 && HeaderSize(input[1]) <= |input|
    ensures PayloadSize(input) <= MAX_SIZE
  {
  }

  /** From then on the connection delivers nothing, and everything that arrives is kept. */
  lemma {:induction false} UnknownOpcodeBlocks(buffer: seq<Byte>, chunks: seq<seq<Byte>>)
    requires UnknownOpcode(buffer)
    ensures Receive(buffer, chunks) == Outcome([], buffer + Flatten(chunks), Stop)
    decreases |chunks|
  {
    hide ParseOne, Known;
    if chunks == [] {
      assert buffer + [] == buffer;
    } else {
      UnknownStops(buffer + chunks[0]);
      UnknownOpcodeBlocks(buffer + chunks[0], chunks[1..]);
      assert buffer + Flatten(chunks) == (buffer + chunks[0]) + Flatten(chunks[1..]);
    }
  }

  /** For example after the last fragment of a fragmented message. */
  lemma LastFragmentBlocks(payload: seq<Byte>, chunks: seq<seq<Byte>>)
    ensures var frame := [0x80 | CONTINUATION_FRAME] + payload;
      Receive(frame, chunks) == Outcome([], frame + Flatten(chunks), Stop)
  {
    LastFragment();
    UnknownOpcodeBlocks([0x80 | CONTINUATION_FRAME] + payload, chunks);
  }

  lemma LastFragment()
    ensures var b: Byte := 0x80 | CONTINUATION_FRAME; b & 0xF0 == 0x80 && !Known(b & 0x0F)
  {
  }

  /** The connection is closed exactly for extension bits, and otherwise for a first byte without the final bit. */
  lemma ClosesExactly(input: seq<Byte>)
    ensures ParseOne(input).ExtensionOn? <==> |input| >= 2 && input[0] & 0x70 != 0
    ensures ParseOne(input).ContinuationOn? <==> |input| >= 2 && input[0] & 0xF0 == 0
  {
    if |input| >= 2 {
      NoHighBits(input[0]);
    }
  }

  lemma NoHighBits(b: Byte)
    ensures b & 0xF0 == 0 <==> b & 0x70 == 0 && b & 0x80 != 0x80
  {
  }

  /** A header with the 64-bit length code aborts the server as soon as it is complete. */
  lemma LongFrameAborts(input: seq<Byte>)
    requires |input| >= 2 && input[0] & 0xF0 == 0x80 && Known(input[0] & 0x0F)
    ensures ParseOne(input) == TooLong <==> ToNat(input[1] & 0x7f) == 127 && |input| >= HeaderSize(input[1])
  {
    HighBits(input[0]);
  }

  lemma HighBits(b: Byte)
    requires b & 0xF0 == 0x80
    ensures b & 0x70 == 0 && b & 0x80 == 0x80
  {
  }
}
