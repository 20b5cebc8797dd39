/** The read buffer of a connection, the parsing loop over it, and the writing of frames. */
module FrameSessions {
  import opened ByteOrder
  import opened MaskWords
  import opened Masking
  import opened Frames

  lemma SliceOfSlice(b: seq<Byte>, start: nat, end: nat, i: nat, j: nat)
    requires start <= end <= |b| && i <= j <= end - start
    ensures b[start..end][i..j] == b[start + i..start + j]
  {
    var once, twice := b[start..end], b[start..end][i..j];
    assert |twice| == j - i;
    forall k | 0 <= k < j - i ensures twice[k] == b[start + i..start + j][k] {
      assert twice[k] == once[i + k];
    }
  }

  /** A complete message and its parts. */
  lemma MessageParts(input: seq<Byte>)
    requires ParseOne(input).Message?
    ensures |input| >= 2 && HeaderSize(input[1]) <= |input| && HeaderSize(input[1]) + PayloadSize(input) <= |input|
    ensures ParseOne(input) == Message(Unmasked(input), HeaderSize(input[1]) + PayloadSize(input))
  {
  }

  /** The whole frame is there. */
  predicate Complete(input: seq<Byte>) {
    |input| >= 2 && HeaderSize(input[1]) <= |input| && HeaderSize(input[1]) + PayloadSize(input) <= |input|
  }

  lemma ControlParts(input: seq<Byte>)
    requires ParseOne(input).Control?
    ensures Complete(input)
  {
  }

  /** A buffer in which only the payload of the frame at `start` has changed. */
  lemma PutBack(before: seq<Byte>, after: seq<Byte>, start: nat, end: nat, headerSize: nat, n: nat, payload: seq<Byte>)
    requires start + headerSize + n <= end <= |before| == |after| && |payload| == n
    requires var first := start + headerSize;
      && after[..first] == before[..first] && after[first..first + n] == payload && after[first + n..] == before[first + n..]
    ensures var input := before[start..end];
      after[..end] == before[..end][..start] + (input[..headerSize] + payload + input[headerSize + n..])
  {
    var first := start + headerSize;
    forall k | 0 <= k < end
      ensures after[k] == (before[..start] + (before[start..first] + payload + before[first + n..end]))[k]
    {
      assert k < first ==> after[k] == after[..first][k] == before[..first][k];
      assert first <= k < first + n ==> after[k] == after[first..first + n][k - first];
      assert k >= first + n ==> after[k] == after[first + n..][k - first - n] == before[first + n..][k - first - n];
    }
    assert before[..end][..start] == before[..start];
    assert before[start..end][..headerSize] == before[start..first];
    assert before[start..end][headerSize + n..] == before[first + n..end];
  }

  /** What a round delivers does not depend on what has been delivered before. */
  lemma RoundAppends(l: Loop)
    requires l.parse <= |l.buffer|
    ensures var r := Frames.Round(Loop(l.buffer, l.parse, []));
      Frames.Round(l) == Loop(r.buffer, r.parse, l.delivered + r.delivered)
  {
    hide ParseOne, InPlace;
    assert [] + Frames.Round(Loop(l.buffer, l.parse, [])).delivered == Frames.Round(Loop(l.buffer, l.parse, [])).delivered;
    assert l.delivered + [] == l.delivered;
  }

  lemma {:induction false} RoundsAfter(l: Loop, n: nat)
    requires l.parse <= |l.buffer|
    ensures Rounds(l, n + 1) == Frames.Round(Rounds(l, n))
    decreases n
  {
    hide Frames.Round;
    if n > 0 {
      RoundsAfter(Frames.Round(l), n - 1);
    }
  }

  lemma NoRounds(l: Loop)
    requires l.parse <= |l.buffer|
    ensures Rounds(l, 0) == l
  {
  }

  /** What has been delivered and what is still in the buffer make up the whole outcome. */
  predicate Continues(all: Outcome, l: Loop)
    requires l.parse <= |l.buffer|
  {
    var later := ParseAll(l.buffer[l.parse..]);
    all == Outcome(l.delivered + later.messages, later.rest, later.end)
  }

  lemma ContinuesFromStart(buffer: seq<Byte>)
    ensures Continues(ParseAll(buffer), Loop(buffer, 0, []))
  {
    assert buffer[0..] == buffer;
    assert [] + ParseAll(buffer).messages == ParseAll(buffer).messages;
  }

  lemma ContinuesOn(all: Outcome, l: Loop)
    requires l.parse <= |l.buffer| && Continues(all, l) && ParseOne(l.buffer[l.parse..]).Message?
    ensures Continues(all, Frames.Round(l))
  {
    hide ParseOne, InPlace;
    RestAfterMessage(l);
    var next, r := ParseOne(l.buffer[l.parse..]), Frames.Round(l);
    var later := ParseAll(r.buffer[r.parse..]);
    assert l.delivered + ([next.payload] + later.messages) == r.delivered + later.messages;
  }

  lemma ContinuesToEnd(all: Outcome, l: Loop)
    requires l.parse <= |l.buffer| && Continues(all, l) && !ParseOne(l.buffer[l.parse..]).Message?
    ensures all == Outcome(l.delivered, l.buffer[l.parse..], ParseOne(l.buffer[l.parse..]))
  {
    assert l.delivered + [] == l.delivered;
  }

  /** What has been delivered, and what the chunks still to come give with what is in the buffer, make up the whole
      outcome. */
  predicate Resumes(all: Outcome, delivered: seq<seq<Byte>>, buffer: seq<Byte>, chunks: seq<seq<Byte>>) {
    var later := Receive(buffer, chunks);
    all == Outcome(delivered + later.messages, later.rest, later.end)
  }

  lemma ResumesNext(all: Outcome, delivered: seq<seq<Byte>>, buffer: seq<Byte>, chunks: seq<seq<Byte>>)
    requires Resumes(all, delivered, buffer, chunks) && chunks != []
    ensures var first := ParseAll(buffer + chunks[0]);
      if first.end.Stop? then Resumes(all, delivered + first.messages, first.rest, chunks[1..])
      else all.messages == delivered + first.messages && all.end == first.end
  {
    hide ParseAll;
    var first := ParseAll(buffer + chunks[0]);
    if first.end.Stop? {
      var later := Receive(first.rest, chunks[1..]);
      assert delivered + (first.messages + later.messages) == (delivered + first.messages) + later.messages;
    }
  }

  /** A connection that waits for frames. */
  class Session {
    var buff: array<Byte>
    var size: nat

    ghost predicate Valid()
      reads this
    {
      size <= buff.Length
    }

    ghost function Contents(): seq<Byte>
      requires Valid()
      reads this, buff
    {
      buff[..size]
    }

    constructor (capacity: nat)
      ensures Valid() && fresh(buff) && Contents() == []
    {
      buff := new Byte[capacity](_ => 0);
      size := 0;
    }

    /** Bytes arrive. */
    method Append(chunk: seq<Byte>)
      requires Valid()
      modifies this, buff
      ensures Valid() && Contents() == old(Contents()) + chunk && (buff == old(buff) || fresh(buff))
    {
      if buff.Length < size + |chunk| {
        var larger := new Byte[size + |chunk|];
        forall i | 0 <= i < size {
          larger[i] := buff[i];
        }
        buff := larger;
      }
      forall i | 0 <= i < |chunk| {
        buff[size + i] := chunk[i];
      }
      size := size + |chunk|;
    }

    /** `erase`: the first `n` bytes go. */
    method Erase(n: nat)
      requires Valid() && n <= size
      modifies this`size, buff
      ensures Valid() && Contents() == old(Contents())[n..]
    {
      forall i | 0 <= i < size - n {
        buff[i] := buff[n + i];
      }
      size := size - n;
    }

    /** The unmasking loop, over the payload of `n` bytes at `first`. */
    method UnmaskInPlace(first: nat, n: nat, key: Key)
      requires first + n <= buff.Length
      modifies buff
      ensures buff[first..first + n] == Masked(old(buff[first..first + n]), key, 0)
      ensures buff[..first] == old(buff[..first]) && buff[first + n..] == old(buff[first + n..])
    {
      hide Xor;
      var i := 0;
      while i != n
        invariant 0 <= i <= n
        invariant forall k :: first <= k < first + i ==> buff[k] == Xor(old(buff[k]), key[(k - first) % 4])
        invariant forall k :: 0 <= k < first || first + i <= k < buff.Length ==> buff[k] == old(buff[k])
      {
        buff[first + i] := Xor(buff[first + i], key[i % 4]);
        i := i + 1;
      }
    }

    /** Unmasks the payload of the complete frame at the parse position where it lies. */
    method UnmaskFrame(parseSize: nat)
      requires Valid() && parseSize <= size && Complete(buff[parseSize..size])
      modifies buff
      ensures Contents() == old(Contents()[..parseSize] + InPlace(buff[parseSize..size]))
    {
      hide Xor, Masked, ParseOne, HeaderSize, PayloadSize;
      ghost var input, before := buff[parseSize..size], buff[..];
      var b1 := buff[parseSize + 1];
      var headerSize, n := HeaderSize(b1), PayloadSize(buff[parseSize..size]);
      var first := parseSize + headerSize;
      assert input == buff[..][parseSize..size] && buff[first..first + n] == buff[..][first..first + n];
      SliceOfSlice(buff[..], parseSize, size, headerSize, headerSize + n);
      if b1 & 0x80 == 0x80 {
        var key := KeyAt(buff[parseSize..size]);
        UnmaskInPlace(first, n, key);
      }
      assert buff[first..first + n] == Unmasked(input);
      PutBack(before, buff[..], parseSize, size, headerSize, n, Unmasked(input));
    }

    /** The message at the parse position: unmasks its payload where it lies and hands it to `onReadMsg`. */
    method TakeMessage(parseSize: nat) returns (payload: seq<Byte>, length: nat)
      requires Valid() && parseSize <= size && ParseOne(buff[parseSize..size]).Message?
      modifies buff
      ensures Message(payload, length) == old(ParseOne(buff[parseSize..size])) && parseSize + length <= size
      ensures Contents() == old(Contents()[..parseSize] + InPlace(buff[parseSize..size]))
    {
      hide Xor, Masked, ParseOne, HeaderSize, PayloadSize, Unmasked;
      ghost var input := buff[parseSize..size];
      MessageParts(input);
      var headerSize, n := HeaderSize(buff[parseSize + 1]), PayloadSize(buff[parseSize..size]);
      UnmaskFrame(parseSize);
      payload := buff[parseSize + headerSize..parseSize + headerSize + n];
      length := headerSize + n;
      assert payload == Contents()[parseSize..][headerSize..headerSize + n] == Unmasked(input);
    }

    /** One round of the frame loop. */
    method Iterate(parseSize: nat) returns (parse: nat, delivered: seq<seq<Byte>>, end: Next)
      requires Valid() && parseSize <= size
      modifies buff
      ensures end == old(ParseOne(buff[parseSize..size]))
      ensures Loop(Contents(), parse, delivered) == Frames.Round(old(Loop(Contents(), parseSize, [])))
      ensures parse <= size && (end.Message? ==> parse == parseSize + end.length && delivered == [end.payload])
    {
      hide ParseOne, HeaderSize, PayloadSize, InPlace;
      parse, delivered := parseSize, [];
      ghost var input := buff[parseSize..size];
      assert Contents()[parseSize..] == input;
      end := ParseOne(buff[parseSize..size]);
      if end.Message? {
        var payload, length := TakeMessage(parseSize);
        parse, delivered := parse + length, [payload];
        assert [] + [payload] == [payload];
      } else if end.Control? {
        ControlParts(input);
        if buff[parseSize] & 0x0F == PING_FRAME {
          UnmaskFrame(parseSize);
        }
      }
    }

    /** The frame loop of `onRecv`, in the state that waits for frames.  `delivered` are the payloads given to
        `onReadMsg`, `parse` is the parse position at the end.  Where the source aborts this loop ends; at a
        control frame the source's goes on for ever, which `Spin` follows; where the source closes the
        connection nothing is erased. */
    method OnRecv() returns (delivered: seq<seq<Byte>>, parse: nat, end: Next)
      requires Valid()
      modifies this`size, buff
      ensures Valid()
      ensures delivered == ParseAll(old(Contents())).messages && end == ParseAll(old(Contents())).end
      ensures var l := Rounds(Loop(old(Contents()), 0, []), |delivered|);
        && parse == l.parse && delivered == l.delivered
        && l.buffer[parse..] == ParseAll(old(Contents())).rest
        && Contents() == if end.Stop? then l.buffer[parse..] else l.buffer
    {
      hide ParseOne, ParseAll, Continues, Frames.Round, Rounds;
      delivered, parse := [], 0;
      ghost var all, start := ParseAll(Contents()), Loop(Contents(), 0, []);
      ContinuesFromStart(Contents());
      NoRounds(start);
      end := ParseOne(buff[..size]);
      while true
        invariant Valid() && 0 <= parse <= size == old(size)
        invariant Loop(Contents(), parse, delivered) == Rounds(start, |delivered|)
        invariant Continues(all, Loop(Contents(), parse, delivered))
        decreases size - parse
      {
        ghost var l := Loop(Contents(), parse, delivered);
        assert l.buffer[l.parse..] == buff[parse..size];
        end := ParseOne(buff[parse..size]);
        if !end.Message? {
          ContinuesToEnd(all, l);
          break;
        }
        ContinuesOn(all, l);
        RoundAppends(l);
        RoundsAfter(start, |delivered|);
        var got;
        parse, got, end := Iterate(parse);
        delivered := delivered + got;
        assert Loop(Contents(), parse, delivered) == Frames.Round(l);
      }
      if end.Stop? {
        Erase(parse);
      }
    }

    /** The chunks of a connection arrive one after the other, until the loop ends otherwise than by waiting. */
    method ReceiveAll(chunks: seq<seq<Byte>>) returns (delivered: seq<seq<Byte>>, end: Next)
      requires Valid()
      modifies this, buff
      ensures Valid() && (buff == old(buff) || fresh(buff))
      ensures var all := Receive(old(Contents()), chunks);
        delivered == all.messages && end == all.end && (end.Stop? ==> Contents() == all.rest)
    {
      hide ParseAll, Frames.Round, Rounds;
      delivered, end := [], Stop;
      ghost var all := Receive(Contents(), chunks);
      assert Outcome([] + all.messages, all.rest, all.end) == all;
      var i := 0;
      while i < |chunks| && end.Stop?
        invariant i <= |chunks| && Valid() && (buff == old(buff) || fresh(buff))
        invariant end.Stop? ==> Resumes(all, delivered, Contents(), chunks[i..])
        invariant !end.Stop? ==> all.messages == delivered && all.end == end
      {
        ghost var before := Contents();
        Append(chunks[i]);
        ResumesNext(all, delivered, before, chunks[i..]);
        var got, parse;
        got, parse, end := OnRecv();
        delivered := delivered + got;
        i := i + 1;
      }
      if end.Stop? {
        assert chunks[i..] == [];
      }
    }

    /** Frames with any keys, and perhaps the start of one more, arriving in any chunks at an empty buffer: the
        payloads are delivered in order, and the unfinished frame is what the buffer holds. */
    method ReceiveFrames(chunks: seq<seq<Byte>>, ghost sent: seq<Frame>, ghost last: Frame, ghost part: seq<Byte>)
      returns (delivered: seq<seq<Byte>>)
      requires Valid() && Contents() == []
      requires AllSendable(sent) && Sendable(last) && part < Encode(last)
      requires Flatten(chunks) == EncodeAll(sent) + part
      modifies this, buff
      ensures Valid() && delivered == Payloads(sent) && Contents() == part
    {
      FramesInAnyChunks(sent, last, part, chunks);
      var end;
      delivered, end := ReceiveAll(chunks);
    }

    /** At a control frame: whatever number of rounds there have been, the loop is where it was, and the same
        number of bytes waits. */
    method Spin(parseSize: nat, count: nat)
      requires Valid() && parseSize <= size && IsControlFrame(buff[parseSize..size])
      modifies buff
      ensures buff[..parseSize] == old(buff[..parseSize]) && IsControlFrame(buff[parseSize..size])
      ensures Contents() == Rounds(Loop(old(Contents()), parseSize, []), count).buffer
    {
      hide IsControlFrame, Frames.Round;
      ghost var start := Loop(Contents(), parseSize, []);
      assert Contents()[parseSize..] == buff[parseSize..size];
      var i := 0;
      while i < count
        invariant i <= count && Loop(Contents(), parseSize, []) == Rounds(start, i)
        invariant IsControlFrame(Contents()[parseSize..])
      {
        ControlFrameStays(Loop(Contents(), parseSize, []));
        RoundsAfter(start, i);
        var parse, delivered, end := Iterate(parseSize);
        i := i + 1;
      }
      ControlFrameIsNeverPassed(start, count);
      assert buff[..parseSize] == Contents()[..parseSize] && buff[parseSize..size] == Contents()[parseSize..];
    }
  }

  /** `mask`: in place, with the key from its start. */
  method Mask(buffer: array<Byte>, size: nat, key: Key)
    requires size <= buffer.Length
    modifies buffer
    ensures buffer[..size] == Masked(old(buffer[..size]), key, 0) && buffer[size..] == old(buffer[size..])
  {
    hide Xor;
    var i := 0;
    while i != size
      invariant 0 <= i <= size
      invariant forall k :: 0 <= k < i ==> buffer[k] == Xor(old(buffer[k]), key[k % 4])
      invariant forall k :: i <= k < buffer.Length ==> buffer[k] == old(buffer[k])
    {
      buffer[i] := Xor(buffer[i], key[i % 4]);
      i := i + 1;
    }
  }

  /** The header without the key. */
  method WriteStart(outFrame: array<Byte>, size: nat, useMask: bool) returns (headLen: nat)
    requires outFrame.Length >= 10 && size <= MAX_SIZE
    modifies outFrame
    ensures headLen == if size > 125 then 4 else 2
    ensures outFrame[..headLen] == Head(TEXT_FRAME, size, NoKey, size > 125)[1 := outFrame[1]]
    ensures outFrame[1] == (if size > 125 then 126 else ToByte(size)) | (if useMask then 0x80 else 0)
  {
    hide ToByte;
    outFrame[0] := 0x80 | TEXT_FRAME;
    if size <= 125 {
      outFrame[1] := ToByte(size) | (if useMask then 0x80 else 0);
      headLen := 2;
    } else {
      outFrame[1] := 126 | (if useMask then 0x80 else 0);
      outFrame[2], outFrame[3] := ToByte(size / 0x100), ToByte(size % 0x100);
      headLen := 4;
    }
  }

  lemma HeadWithKey(size: nat, field: KeyField, start: seq<Byte>, b1: Byte)
    requires size <= MAX_SIZE && start == Head(TEXT_FRAME, size, NoKey, size > 125)[1 := b1]
    requires b1 == (if size > 125 then 126 else ToByte(size)) | (if field.WithKey? then 0x80 else 0)
    ensures Head(TEXT_FRAME, size, field, size > 125) == start + (if field.WithKey? then field.key else [])
  {
    hide ToByte;
  }

  /** `makeFrameHead`; a longer message fails the source's assertion. */
  method MakeFrameHead(outFrame: array<Byte>, size: nat, useMask: bool, key: Key) returns (headLen: nat)
    requires outFrame.Length >= 10 && size <= MAX_SIZE
    modifies outFrame
    ensures headLen <= 8 && outFrame[..headLen] == Head(TEXT_FRAME, size, if useMask then WithKey(key) else NoKey, size > 125)
  {
    hide ToByte, Head;
    headLen := WriteStart(outFrame, size, useMask);
    ghost var start := outFrame[..headLen];
    HeadWithKey(size, if useMask then WithKey(key) else NoKey, start, outFrame[1]);
    if useMask {
      outFrame[headLen], outFrame[headLen + 1] := key[0], key[1];
      outFrame[headLen + 2], outFrame[headLen + 3] := key[2], key[3];
      headLen := headLen + 4;
      assert outFrame[..headLen] == start + key;
    }
  }

  /** `sendMsg2`: what goes out is a whole frame; a masked payload is masked in the caller's buffer. */
  method SendMsg2(buffer: array<Byte>, size: nat, useMask: bool) returns (sent: seq<Byte>)
    requires size <= buffer.Length && size <= MAX_SIZE
    modifies buffer
    ensures sent == Encode(ServerFrame(old(buffer[..size]), useMask))
    ensures buffer[..size] == (if useMask then Masked(old(buffer[..size]), MASKING_KEY, 0) else old(buffer[..size]))
    ensures buffer[size..] == old(buffer[size..])
  {
    var outFrame := new Byte[10](_ => 0);
    var headLen := MakeFrameHead(outFrame, size, useMask, MASKING_KEY);
    if useMask {
      Mask(buffer, size, MASKING_KEY);
    }
    sent := outFrame[..headLen] + buffer[..size];
  }
}
