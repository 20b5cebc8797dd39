/** The library's frame headers (section 5.2 of RFC 6455): a basic header of two bytes and an extended header
    with the longer lengths and the masking key.  The example server writes and parses headers with code of its
    own; the two agree. */
module FrameHeaders {
  import opened ByteOrder
  import opened Masking
  import Frames

  const PAYLOAD_SIZE_BASIC: nat := 125
  const PAYLOAD_SIZE_EXTENDED: nat := 0xFFFF
  const MAX_EXTENDED_HEADER_LENGTH: nat := 12

  datatype BasicHeader = BasicHeader(b0: Byte, b1: Byte)

  datatype Flags = Flags(fin: bool, rsv1: bool, rsv2: bool, rsv3: bool)

  /** The bytes after the basic header, with room for the longest. */
  type ExtendedHeader = e: seq<Byte> | |e| == MAX_EXTENDED_HEADER_LENGTH witness seq(MAX_EXTENDED_HEADER_LENGTH, _ => 0)

  function Bit(value: bool, b: Byte): Byte { if value then b else 0 }

  function SizeCode(size: nat): (n: nat)
    ensures n < 0x80
  {
    if size <= PAYLOAD_SIZE_BASIC then size else if size <= PAYLOAD_SIZE_EXTENDED then 126 else 127
  }

  function FirstByte(opcode: Byte, flags: Flags): Byte {
    Bit(flags.fin, 0x80) | Bit(flags.rsv1, 0x40) | Bit(flags.rsv2, 0x20) | Bit(flags.rsv3, 0x10) | (opcode & 0x0F)
  }

  function MakeBasic(opcode: Byte, size: nat, masked: bool, flags: Flags): BasicHeader {
    BasicHeader(FirstByte(opcode, flags), Bit(masked, 0x80) | ToByte(SizeCode(size)))
  }

  /** How many bytes of the length the extended header holds. */
  function SizeLength(size: nat): nat {
    if size <= PAYLOAD_SIZE_BASIC then 0 else if size <= PAYLOAD_SIZE_EXTENDED then 2 else 8
  }

  /** The last bytes of the 64-bit length, and the masking key if there is one. */
  function MakeExtended(size: nat, key: seq<Byte>): ExtendedHeader
    requires |key| <= 4
  {
    var length := BigEndian(size, 8)[8 - SizeLength(size)..];
    length + key + seq(MAX_EXTENDED_HEADER_LENGTH - |length| - |key|, _ => 0)
  }

  function GetFlags(h: BasicHeader): Flags {
    Flags(h.b0 & 0x80 == 0x80, h.b0 & 0x40 == 0x40, h.b0 & 0x20 == 0x20, h.b0 & 0x10 == 0x10)
  }

  function GetOpcode(h: BasicHeader): Byte { h.b0 & 0x0F }
  function GetMasked(h: BasicHeader): bool { h.b1 & 0x80 == 0x80 }
  function GetBasicSize(h: BasicHeader): nat { ToNat(h.b1 & 0x7F) }

  function KeyOffset(h: BasicHeader): nat {
    if GetBasicSize(h) == 126 then 2 else if GetBasicSize(h) == 127 then 8 else 0
  }

  function HeaderLength(h: BasicHeader): nat { 2 + KeyOffset(h) + if GetMasked(h) then 4 else 0 }

  function GetPayloadSize(h: BasicHeader, e: ExtendedHeader): nat {
    var size := GetBasicSize(h);
    if size <= PAYLOAD_SIZE_BASIC then size
    else if size == 126 then FromBigEndian(e[0..2])
    else FromBigEndian(e[0..8])
  }

  function GetMaskingKey(h: BasicHeader, e: ExtendedHeader): Key {
    if GetMasked(h) then e[KeyOffset(h)..KeyOffset(h) + 4] else [0, 0, 0, 0]
  }

  /** `prepare_header`: what goes over the wire. */
  function Prepare(h: BasicHeader, e: ExtendedHeader): seq<Byte> {
    [h.b0, h.b1] + e[..HeaderLength(h) - 2]
  }

  // ---------- round trip ----------

  lemma FirstByteBits(opcode: Byte, f: bool, r1: bool, r2: bool, r3: bool)
    ensures var b := (if f then 0x80 else 0) | (if r1 then 0x40 else 0) | (if r2 then 0x20 else 0) | (if r3 then 0x10 else 0) | (opcode & 0x0F);
      && (b & 0x80 == 0x80 <==> f) && (b & 0x40 == 0x40 <==> r1) && (b & 0x20 == 0x20 <==> r2)
      && (b & 0x10 == 0x10 <==> r3) && b & 0x0F == opcode & 0x0F
  {
  }

  lemma SecondByteBits(b: Byte, masked: bool)
    ensures (if masked then 0x80 else 0) | b == b | (if masked then 0x80 else 0)
  {
  }

  lemma SizeByte(n: nat, masked: bool)
    requires n < 0x80
    ensures var b := Bit(masked, 0x80) | ToByte(n); ToNat(b & 0x7f) == n && (b & 0x80 == 0x80 <==> masked)
  {
    SecondByteBits(ToByte(n), masked);
    Frames.SizeByte(n, masked);
  }

  /** Everything that is put into a header can be read from it again, for all lengths of up to 64 bits. */
  lemma HeaderRoundTrip(opcode: Byte, size: nat, masked: bool, flags: Flags, key: Key)
    requires size < 0x1_0000_0000_0000_0000
    ensures var h, e := MakeBasic(opcode, size, masked, flags), MakeExtended(size, if masked then key else []);
      && GetFlags(h) == flags && GetOpcode(h) == opcode & 0x0F && GetMasked(h) == masked
      && GetPayloadSize(h, e) == size && (masked ==> GetMaskingKey(h, e) == key)
      && HeaderLength(h) == 2 + SizeLength(size) + (if masked then 4 else 0)
  {
    var h, e := MakeBasic(opcode, size, masked, flags), MakeExtended(size, if masked then key else []);
    FlagsBack(opcode, flags, h.b1);
    SecondByteBack(size, masked, h);
    hide FirstByte, GetFlags, GetOpcode, GetBasicSize, GetMasked, MakeBasic;
    LengthBack(size, if masked then key else []);
    KeyBack(size, if masked then key else []);
  }

  lemma SecondByteBack(size: nat, masked: bool, h: BasicHeader)
    requires h.b1 == Bit(masked, 0x80) | ToByte(SizeCode(size))
    ensures GetBasicSize(h) == SizeCode(size) && GetMasked(h) == masked
  {
    SizeByte(SizeCode(size), masked);
  }

  lemma KeyBack(size: nat, key: seq<Byte>)
    requires |key| <= 4
    ensures MakeExtended(size, key)[SizeLength(size)..SizeLength(size) + |key|] == key
  {
  }

  lemma FlagsBack(opcode: Byte, flags: Flags, b1: Byte)
    ensures var h := BasicHeader(FirstByte(opcode, flags), b1); GetFlags(h) == flags && GetOpcode(h) == opcode & 0x0F
  {
    FirstByteBits(opcode, flags.fin, flags.rsv1, flags.rsv2, flags.rsv3);
  }

  lemma LengthBack(size: nat, key: seq<Byte>)
    requires size < 0x1_0000_0000_0000_0000 && |key| <= 4
    ensures var e := MakeExtended(size, key);
      && (PAYLOAD_SIZE_BASIC < size <= PAYLOAD_SIZE_EXTENDED ==> FromBigEndian(e[0..2]) == size)
      && (PAYLOAD_SIZE_EXTENDED < size ==> FromBigEndian(e[0..8]) == size)
  {
    var e := MakeExtended(size, key);
    if PAYLOAD_SIZE_EXTENDED < size {
      DropEight(size);
      BigEndianBack(size, 8);
      assert e[0..8] == BigEndian(size, 8);
    } else if PAYLOAD_SIZE_BASIC < size {
      DropTwo(size);
      BigEndianSplit(size, 6, 2);
      BigEndianBack(size, 2);
      assert e[0..2] == BigEndian(size, 2);
    }
  }

  // ---------- the example server ----------

  /** The header of a text message of up to 65535 bytes. */
  function TextHeader(size: nat, masked: bool, key: Key): seq<Byte> {
    [0x80 | Frames.TEXT_FRAME, ToByte(SizeCode(size)) | Bit(masked, 0x80)]
    + BigEndian(size, 8)[8 - SizeLength(size)..] + (if masked then key else [])
  }

  lemma LibraryHeader(size: nat, masked: bool, key: Key)
    requires size <= Frames.MAX_SIZE
    ensures Prepare(MakeBasic(Frames.TEXT_FRAME, size, masked, Flags(true, false, false, false)),
                    MakeExtended(size, if masked then key else []))
         == TextHeader(size, masked, key)
  {
    hide ToByte, FirstByte, GetFlags, GetOpcode, BigEndian, ToNat;
    FirstTextByte();
    var flags, tail := Flags(true, false, false, false), if masked then key else [];
    var h, e := MakeBasic(Frames.TEXT_FRAME, size, masked, flags), MakeExtended(size, tail);
    HeaderRoundTrip(Frames.TEXT_FRAME, size, masked, flags, key);
    SecondByteBits(ToByte(SizeCode(size)), masked);
    assert e[..HeaderLength(h) - 2] == BigEndian(size, 8)[8 - SizeLength(size)..] + tail;
  }

  lemma ServerHeader(size: nat, masked: bool, key: Key)
    requires size <= Frames.MAX_SIZE
    ensures Frames.Head(Frames.TEXT_FRAME, size, if masked then Frames.WithKey(key) else Frames.NoKey, size > 125) == TextHeader(size, masked, key)
  {
    hide ToByte, BigEndian;
    SizeInBytes(size);
  }

  /** The header that the library makes for a text message is the one that the example server writes. */
  lemma HeadersAgree(size: nat, masked: bool, key: Key)
    requires size <= Frames.MAX_SIZE
    ensures Prepare(MakeBasic(Frames.TEXT_FRAME, size, masked, Flags(true, false, false, false)),
                    MakeExtended(size, if masked then key else []))
         == Frames.Head(Frames.TEXT_FRAME, size, if masked then Frames.WithKey(key) else Frames.NoKey, size > 125)
  {
    LibraryHeader(size, masked, key);
    ServerHeader(size, masked, key);
  }

  lemma FirstTextByte()
    ensures FirstByte(Frames.TEXT_FRAME, Flags(true, false, false, false)) == 0x80 | Frames.TEXT_FRAME
  {
  }

  lemma SizeInBytes(size: nat)
    requires size <= Frames.MAX_SIZE
    ensures size > 125 ==> BigEndian(size, 8)[6..] == [ToByte(size / 0x100), ToByte(size % 0x100)]
    ensures ToByte(126) == 126
  {
    BigEndianSplit(size, 6, 2);
    assert BigEndian(size, 8)[6..] == BigEndian(size, 2);
    assert BigEndian(size, 2) == BigEndian(size / 0x100, 1) + [ToByte(size % 0x100)];
    assert BigEndian(size / 0x100, 1) == [] + [ToByte(size / 0x100)];
  }
}
