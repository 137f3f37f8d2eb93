/** WebSocket frame headers (section 5.2 of RFC 6455): what is encoded is what is read back. */
module FrameHeader {
  import opened Options
  import opened Bytes

  const BHB0_OPCODE: Byte := 0x0F
  const BHB0_RSV3: Byte := 0x10
  const BHB0_RSV2: Byte := 0x20
  const BHB0_RSV1: Byte := 0x40
  const BHB0_FIN: Byte := 0x80
  const BHB1_PAYLOAD: Byte := 0x7F
  const BHB1_MASK: Byte := 0x80

  const PAYLOAD_SIZE_BASIC: bv64 := 125
  const PAYLOAD_SIZE_EXTENDED: bv64 := 0xFFFF
  const PAYLOAD_SIZE_CODE_16BIT: Byte := 0x7E
  const PAYLOAD_SIZE_CODE_64BIT: Byte := 0x7F

  const BASIC_HEADER_LENGTH: nat := 2
  const MAX_EXTENDED_HEADER_LENGTH: nat := 12

  // ---- byte order ----

  /** A 64-bit value in network order: the most significant byte first. */
  function NetworkBytes(x: bv64): (bytes: seq<Byte>)
    ensures |bytes| == 8
  {
    [((x >> 56) & 0xFF) as Byte, ((x >> 48) & 0xFF) as Byte, ((x >> 40) & 0xFF) as Byte, ((x >> 32) & 0xFF) as Byte,
     ((x >> 24) & 0xFF) as Byte, ((x >> 16) & 0xFF) as Byte, ((x >> 8) & 0xFF) as Byte, (x & 0xFF) as Byte]
  }

  function Or64(a: bv64, b: bv64, c: bv64, d: bv64, e: bv64, f: bv64, g: bv64, h: bv64): bv64 {
    (a << 56) | (b << 48) | (c << 40) | (d << 32) | (e << 24) | (f << 16) | (g << 8) | h
  }

  function FromNetwork64(b: seq<Byte>): bv64
    requires |b| >= 8
  {
    Or64(b[0] as bv64, b[1] as bv64, b[2] as bv64, b[3] as bv64, b[4] as bv64, b[5] as bv64, b[6] as bv64, b[7] as bv64)
  }

  function FromNetwork16(b: seq<Byte>): bv64
    requires |b| >= 2
  {
    ((b[0] as bv64) << 8) | (b[1] as bv64)
  }

  /** Only the first bytes are read. */
  lemma FromNetworkPrefix(b: seq<Byte>, c: seq<Byte>)
    requires b <= c
    ensures |b| >= 8 ==> FromNetwork64(c) == FromNetwork64(b)
    ensures |b| >= 2 ==> FromNetwork16(c) == FromNetwork16(b)
  {
  }

  lemma NetworkRoundTrip(x: bv64)
    ensures FromNetwork64(NetworkBytes(x)) == x
    ensures x <= PAYLOAD_SIZE_EXTENDED ==> FromNetwork16(NetworkBytes(x)[6..]) == x
  {
  }

  function Swapped(b: seq<Byte>): (swapped: seq<Byte>)
    requires |b| == 8
    ensures |swapped| == 8
  {
    [b[7], b[6], b[5], b[4], b[3], b[2], b[1], b[0]]
  }

  /** How a 64-bit value lies in memory, and the value that lies there. */
  function InMemory(order: ByteOrder, x: bv64): (bytes: seq<Byte>)
    ensures |bytes| == 8
  {
    if order.BigEndian? then NetworkBytes(x) else Swapped(NetworkBytes(x))
  }

  /** A little-endian machine keeps the least significant byte first. */
  lemma LittleEndianBytes(x: bv64)
    ensures InMemory(LittleEndian, x)
      == [(x & 0xFF) as Byte, ((x >> 8) & 0xFF) as Byte, ((x >> 16) & 0xFF) as Byte, ((x >> 24) & 0xFF) as Byte,
          ((x >> 32) & 0xFF) as Byte, ((x >> 40) & 0xFF) as Byte, ((x >> 48) & 0xFF) as Byte, ((x >> 56) & 0xFF) as Byte]
  {
  }

  function FromMemory(order: ByteOrder, bytes: seq<Byte>): bv64
    requires |bytes| == 8
  {
    FromNetwork64(if order.BigEndian? then bytes else Swapped(bytes))
  }

  lemma OneInMemory(order: ByteOrder)
    ensures InMemory(order, 1)[7] == 1 <==> order.BigEndian?
  {
  }

  /** What _htonll does to the bytes of a value in memory; the byte order is found by looking at how 1 lies there. */
  function Converted(order: ByteOrder, bytes: seq<Byte>): (converted: seq<Byte>)
    requires |bytes| == 8
    ensures |converted| == 8
  {
    if InMemory(order, 1)[7] == 1 then bytes else Swapped(bytes)
  }

  /** On either kind of machine, what _htonll returns lies in memory in network order. */
  lemma HtonllIsNetworkOrder(order: ByteOrder, x: bv64)
    ensures Converted(order, InMemory(order, x)) == NetworkBytes(x)
  {
    OneInMemory(order);
  }

  /** On either kind of machine, _ntohll turns eight bytes read from the wire into the value they have in network order. */
  lemma NtohllReadsNetworkOrder(order: ByteOrder, b: seq<Byte>)
    requires |b| == 8
    ensures FromMemory(order, Converted(order, b)) == FromNetwork64(b)
  {
    OneInMemory(order);
    assert Swapped(Swapped(b)) == b;
  }

  /** The eight bytes copy_payload takes its bytes from. */
  function SizeInMemory(order: ByteOrder, size: bv64): (bytes: seq<Byte>)
    ensures bytes == NetworkBytes(size)
  {
    HtonllIsNetworkOrder(order, size);
    Converted(order, InMemory(order, size))
  }

  // ---- what the constructors write ----

  datatype Header = Header(opcode: Byte, size: bv64, fin: bool, rsv1: bool, rsv2: bool, rsv3: bool, key: Option<Key>)

  function Bit(set_: bool, bit: Byte): Byte { if set_ then bit else 0 }

  function BasicSize(size: bv64): Byte {
    if size <= PAYLOAD_SIZE_BASIC then (size & 0x7F) as Byte
    else if size <= PAYLOAD_SIZE_EXTENDED then PAYLOAD_SIZE_CODE_16BIT
    else PAYLOAD_SIZE_CODE_64BIT
  }

  function FirstByte(op: Byte, fin: bool, rsv1: bool, rsv2: bool, rsv3: bool): Byte {
    Bit(fin, BHB0_FIN) | Bit(rsv1, BHB0_RSV1) | Bit(rsv2, BHB0_RSV2) | Bit(rsv3, BHB0_RSV3) | (op & BHB0_OPCODE)
  }

  function SecondByte(size: bv64, mask: bool): Byte { Bit(mask, BHB1_MASK) | BasicSize(size) }

  function B0(h: Header): Byte { FirstByte(h.opcode, h.fin, h.rsv1, h.rsv2, h.rsv3) }
  function B1(h: Header): Byte { SecondByte(h.size, h.key.Some?) }

  /** The bytes of the extended length: none, two or eight. */
  function SizeBytes(size: bv64): seq<Byte> {
    if size <= PAYLOAD_SIZE_BASIC then []
    else if size <= PAYLOAD_SIZE_EXTENDED then NetworkBytes(size)[6..]
    else NetworkBytes(size)
  }

  function Zeros(n: nat): (z: seq<Byte>)
    ensures |z| == n
  {
    seq(n, _ => 0)
  }

  /** The twelve bytes of the extended header: length, key, and zeros after them. */
  function Extended(size: bv64, key: Option<Key>): (bytes: seq<Byte>)
    ensures |bytes| == MAX_EXTENDED_HEADER_LENGTH
  {
    var used := SizeBytes(size) + if key.Some? then key.value else [];
    used + Zeros(MAX_EXTENDED_HEADER_LENGTH - |used|)
  }

  class BasicHeader {
    var b0: Byte
    var b1: Byte

    constructor (op: Byte, size: bv64, fin: bool, mask: bool, rsv1: bool, rsv2: bool, rsv3: bool)
      ensures b0 == FirstByte(op, fin, rsv1, rsv2, rsv3) && b1 == SecondByte(size, mask)
    {
      var x0 := SetFlags(fin, rsv1, rsv2, rsv3);
      var x1: Byte := 0;
      x0 := x0 | (op & BHB0_OPCODE);
      if mask { x1 := x1 | BHB1_MASK; }
      var basicValue := ChooseForm(size);
      x1 := x1 | basicValue;
      b0, b1 := x0, x1;
    }

    static method SetFlags(fin: bool, rsv1: bool, rsv2: bool, rsv3: bool) returns (x0: Byte)
      ensures x0 == Bit(fin, BHB0_FIN) | Bit(rsv1, BHB0_RSV1) | Bit(rsv2, BHB0_RSV2) | Bit(rsv3, BHB0_RSV3)
    {
      x0 := 0;
      if fin { x0 := x0 | BHB0_FIN; }
      if rsv1 { x0 := x0 | BHB0_RSV1; }
      if rsv2 { x0 := x0 | BHB0_RSV2; }
      if rsv3 { x0 := x0 | BHB0_RSV3; }
    }

    /** The 7-bit length: the size itself, or the code of the form it takes. */
    static method ChooseForm(size: bv64) returns (basicValue: Byte)
      ensures basicValue == BasicSize(size)
    {
      if size <= PAYLOAD_SIZE_BASIC {
        basicValue := (size & 0x7F) as Byte;
      } else if size <= PAYLOAD_SIZE_EXTENDED {
        basicValue := PAYLOAD_SIZE_CODE_16BIT;
      } else {
        basicValue := PAYLOAD_SIZE_CODE_64BIT;
      }
    }
  }

  class ExtendedHeader {
    const bytes: array<Byte>

    constructor (order: ByteOrder, size: bv64, key: Option<Key>)
      ensures bytes.Length == 12 && bytes[..] == Extended(size, key)
    {
      bytes := new Byte[MAX_EXTENDED_HEADER_LENGTH](_ => 0);
      new;
      ghost var empty := bytes[..];
      forall n: nat | n <= 8 ensures empty[n..] == Zeros(MAX_EXTENDED_HEADER_LENGTH - n) {}
      var offset := CopyPayload(order, size);
      assert bytes[..] == SizeBytes(size) + Zeros(MAX_EXTENDED_HEADER_LENGTH - offset);
      if key.Some? {
        CopyKey(offset, key.value);
      }
      assert bytes[..] == Extended(size, key);
    }

    method CopyKey(offset: nat, key: Key)
      requires bytes.Length == MAX_EXTENDED_HEADER_LENGTH && offset <= 8
      modifies bytes
      ensures bytes[..] == old(bytes[..])[..offset] + key + old(bytes[..])[offset + 4..]
    {
      for i := 0 to 4
        invariant forall j :: 0 <= j < i ==> bytes[offset + j] == key[j]
        invariant forall j :: 0 <= j < bytes.Length && !(offset <= j < offset + i) ==> bytes[j] == old(bytes[j])
      {
        bytes[offset + i] := key[i];
      }
    }

    /** Writes the length bytes at the front and returns where the masking key goes. */
    method CopyPayload(order: ByteOrder, size: bv64) returns (offset: nat)
      requires bytes.Length == MAX_EXTENDED_HEADER_LENGTH
      modifies bytes
      ensures offset == |SizeBytes(size)| <= 8
      ensures bytes[..] == SizeBytes(size) + old(bytes[..])[offset..]
    {
      var payloadOffset := 0;
      if size <= PAYLOAD_SIZE_BASIC {
        payloadOffset := 8;
      } else if size <= PAYLOAD_SIZE_EXTENDED {
        payloadOffset := 6;
      }
      var temp := SizeInMemory(order, size);
      for i := payloadOffset to 8
        invariant forall j :: 0 <= j < i - payloadOffset ==> bytes[j] == temp[payloadOffset + j]
        invariant forall j :: i - payloadOffset <= j < bytes.Length ==> bytes[j] == old(bytes[j])
      {
        bytes[i - payloadOffset] := temp[i];
      }
      offset := 8 - payloadOffset;
    }
  }

  // ---- the getters ----

  predicate GetFin(b0: Byte) { b0 & BHB0_FIN == BHB0_FIN }
  predicate GetRsv1(b0: Byte) { b0 & BHB0_RSV1 == BHB0_RSV1 }
  predicate GetRsv2(b0: Byte) { b0 & BHB0_RSV2 == BHB0_RSV2 }
  predicate GetRsv3(b0: Byte) { b0 & BHB0_RSV3 == BHB0_RSV3 }
  function GetOpcode(b0: Byte): Byte { b0 & BHB0_OPCODE }
  predicate GetMasked(b1: Byte) { b1 & BHB1_MASK == BHB1_MASK }
  function GetBasicSize(b1: Byte): Byte { b1 & BHB1_PAYLOAD }

  function GetMaskingKeyOffset(b1: Byte): nat {
    if GetBasicSize(b1) == PAYLOAD_SIZE_CODE_16BIT then 2
    else if GetBasicSize(b1) == PAYLOAD_SIZE_CODE_64BIT then 8
    else 0
  }

  function GetHeaderLen(b1: Byte): nat {
    BASIC_HEADER_LENGTH + GetMaskingKeyOffset(b1) + if GetMasked(b1) then 4 else 0
  }

  function GetMaskingKey(b1: Byte, ext: seq<Byte>): Key
    requires |ext| == MAX_EXTENDED_HEADER_LENGTH
  {
    if !GetMasked(b1) then [0, 0, 0, 0]
    else ext[GetMaskingKeyOffset(b1)..GetMaskingKeyOffset(b1) + 4]
  }

  function GetPayloadSize(b1: Byte, ext: seq<Byte>): bv64
    requires |ext| == MAX_EXTENDED_HEADER_LENGTH
  {
    var val := GetBasicSize(b1);
    if val as bv64 <= PAYLOAD_SIZE_BASIC then val as bv64
    else if val == PAYLOAD_SIZE_CODE_16BIT then FromNetwork16(ext)
    else FromNetwork64(ext)
  }

  /** The header as it goes on the wire: never more than the twelve extended bytes are read. */
  function PrepareHeader(b0: Byte, b1: Byte, ext: seq<Byte>): (wire: seq<Byte>)
    requires |ext| == MAX_EXTENDED_HEADER_LENGTH
    ensures |wire| == GetHeaderLen(b1) <= 2 + 12
  {
    [b0, b1] + ext[..GetHeaderLen(b1) - BASIC_HEADER_LENGTH]
  }

  // ---- round trips ----

  lemma FirstByteRoundTrip(op: Byte, fin: bool, rsv1: bool, rsv2: bool, rsv3: bool)
    requires op <= 0xF
    ensures var b0 := FirstByte(op, fin, rsv1, rsv2, rsv3);
      && GetFin(b0) == fin && GetRsv1(b0) == rsv1 && GetRsv2(b0) == rsv2 && GetRsv3(b0) == rsv3
      && GetOpcode(b0) == op
  {
  }

  lemma SecondByteRoundTrip(size: bv64, mask: bool)
    ensures GetMasked(SecondByte(size, mask)) == mask
    ensures GetBasicSize(SecondByte(size, mask)) == BasicSize(size) <= 127
  {
  }

  lemma KeyOffset(b1: Byte, size: bv64)
    requires GetBasicSize(b1) == BasicSize(size)
    ensures GetMaskingKeyOffset(b1) == |SizeBytes(size)|
  {
  }

  /** The size is in the basic header, or at the front of the extended bytes in the form the basic header announces. */
  lemma SizeRoundTrip(size: bv64, rest: seq<Byte>)
    ensures size <= PAYLOAD_SIZE_BASIC ==> BasicSize(size) as bv64 == size
    ensures PAYLOAD_SIZE_BASIC < size <= PAYLOAD_SIZE_EXTENDED ==>
              BasicSize(size) == PAYLOAD_SIZE_CODE_16BIT && FromNetwork16(SizeBytes(size) + rest) == size
    ensures size > PAYLOAD_SIZE_EXTENDED ==>
              BasicSize(size) == PAYLOAD_SIZE_CODE_64BIT && FromNetwork64(SizeBytes(size) + rest) == size
  {
    NetworkRoundTrip(size);
    FromNetworkPrefix(SizeBytes(size), SizeBytes(size) + rest);
  }

  lemma KeyRoundTrip(size: bv64, key: Key)
    ensures Extended(size, Some(key))[|SizeBytes(size)|..|SizeBytes(size)| + 4] == key
  {
  }

  lemma GetPayloadSizeIs(b1: Byte, size: bv64, rest: seq<Byte>)
    requires GetBasicSize(b1) == BasicSize(size) && |SizeBytes(size) + rest| == MAX_EXTENDED_HEADER_LENGTH
    ensures GetPayloadSize(b1, SizeBytes(size) + rest) == size
  {
    SizeRoundTrip(size, rest);
  }

  /** The size and key found behind a second byte that announces them. */
  lemma FieldsRoundTrip(b1: Byte, size: bv64, key: Option<Key>)
    requires GetMasked(b1) == key.Some? && GetBasicSize(b1) == BasicSize(size)
    ensures GetMaskingKeyOffset(b1) == |SizeBytes(size)|
    ensures key.Some? ==> GetMaskingKey(b1, Extended(size, key)) == key.value
    ensures GetPayloadSize(b1, Extended(size, key)) == size
  {
    KeyOffset(b1, size);
    if key.Some? { KeyRoundTrip(size, key.value); }
    var rest := Extended(size, key)[|SizeBytes(size)|..];
    assert Extended(size, key) == SizeBytes(size) + rest;
    GetPayloadSizeIs(b1, size, rest);
  }

  /** Every field read back from the constructed headers is the one encoded, for every size a length field can hold. */
  lemma HeaderRoundTrip(h: Header)
    requires h.opcode <= 0xF
    ensures GetFin(B0(h)) == h.fin && GetRsv1(B0(h)) == h.rsv1 && GetRsv2(B0(h)) == h.rsv2 && GetRsv3(B0(h)) == h.rsv3
    ensures GetOpcode(B0(h)) == h.opcode
    ensures GetMasked(B1(h)) == h.key.Some?
    ensures GetMaskingKeyOffset(B1(h)) == |SizeBytes(h.size)|
    ensures h.key.Some? ==> GetMaskingKey(B1(h), Extended(h.size, h.key)) == h.key.value
    ensures GetPayloadSize(B1(h), Extended(h.size, h.key)) == h.size
  {
    FirstByteRoundTrip(h.opcode, h.fin, h.rsv1, h.rsv2, h.rsv3);
    SecondByteRoundTrip(h.size, h.key.Some?);
    FieldsRoundTrip(B1(h), h.size, h.key);
  }

  // ---- an independent reading of the wire format ----

  /** The length of the extended length field and the size, given the 7-bit length and what follows the first two bytes. */
  function SizeFieldLength(len7: Byte): nat { if len7 == 126 then 2 else if len7 == 127 then 8 else 0 }

  /** Two and eight bytes as the digits of a number in base 256, the most significant first. */
  function Base256x2(a: Byte, b: Byte): bv64 { (a as bv64) * 256 + (b as bv64) }

  function Base256x8(a: Byte, b: Byte, c: Byte, d: Byte, e: Byte, f: Byte, g: Byte, h: Byte): bv64 {
    (a as bv64) * 0x100_0000_0000_0000 + (b as bv64) * 0x1_0000_0000_0000
    + (c as bv64) * 0x100_0000_0000 + (d as bv64) * 0x1_0000_0000
    + (e as bv64) * 0x100_0000 + (f as bv64) * 0x1_0000 + (g as bv64) * 0x100 + (h as bv64)
  }

  function DecodeSize(len7: Byte, rest: seq<Byte>): bv64
    requires |rest| >= SizeFieldLength(len7)
  {
    if len7 == 126 then Base256x2(rest[0], rest[1])
    else if len7 == 127 then Base256x8(rest[0], rest[1], rest[2], rest[3], rest[4], rest[5], rest[6], rest[7])
    else len7 as bv64
  }

  lemma DigitsAreShifts(a: Byte, b: Byte, c: Byte, d: Byte, e: Byte, f: Byte, g: Byte, h: Byte)
    ensures Base256x8(a, b, c, d, e, f, g, h)
         == Or64(a as bv64, b as bv64, c as bv64, d as bv64, e as bv64, f as bv64, g as bv64, h as bv64)
    ensures Base256x2(a, b) == ((a as bv64) << 8) | (b as bv64)
  {
  }

  lemma DecodeSizeReads(len7: Byte, rest: seq<Byte>)
    requires |rest| >= SizeFieldLength(len7)
    ensures len7 == 126 ==> DecodeSize(len7, rest) == FromNetwork16(rest)
    ensures len7 == 127 ==> DecodeSize(len7, rest) == FromNetwork64(rest)
  {
    if len7 == 126 { DigitsAreShifts(rest[0], rest[1], 0, 0, 0, 0, 0, 0); }
    if len7 == 127 { DigitsAreShifts(rest[0], rest[1], rest[2], rest[3], rest[4], rest[5], rest[6], rest[7]); }
  }

  function DecodeFlags(b0: Byte, size: bv64, key: Option<Key>): Header {
    Header(b0 % 16, size, b0 >= 128, b0 / 64 % 2 == 1, b0 / 32 % 2 == 1, b0 / 16 % 2 == 1, key)
  }

  /** The header at the front of a byte stream, read straight from section 5.2, with the number of bytes it takes. */
  function Decode(wire: seq<Byte>): Option<(Header, nat)> {
    if |wire| < 2 then None
    else
      var len7 := wire[1] % 128;
      var keyAt := 2 + SizeFieldLength(len7);
      var total := keyAt + if wire[1] >= 128 then 4 else 0;
      if |wire| < total then None
      else
        var key := if wire[1] >= 128 then Some(wire[keyAt..total]) else None;
        Some((DecodeFlags(wire[0], DecodeSize(len7, wire[2..]), key), total))
  }

  function Encode(h: Header): seq<Byte> { PrepareHeader(B0(h), B1(h), Extended(h.size, h.key)) }

  lemma FirstByteView(op: Byte, fin: bool, rsv1: bool, rsv2: bool, rsv3: bool, size: bv64, key: Option<Key>)
    requires op <= 0xF
    ensures DecodeFlags(FirstByte(op, fin, rsv1, rsv2, rsv3), size, key) == Header(op, size, fin, rsv1, rsv2, rsv3, key)
  {
  }

  lemma SecondByteView(size: bv64, mask: bool)
    ensures SecondByte(size, mask) % 128 == BasicSize(size) && (SecondByte(size, mask) >= 128) == mask
  {
  }

  lemma DecodeSizeIs(size: bv64, rest: seq<Byte>)
    ensures SizeFieldLength(BasicSize(size)) == |SizeBytes(size)|
    ensures DecodeSize(BasicSize(size), SizeBytes(size) + rest) == size
  {
    SizeRoundTrip(size, rest);
    DecodeSizeReads(BasicSize(size), SizeBytes(size) + rest);
  }

  function KeyBytes(key: Option<Key>): seq<Byte> { if key.Some? then key.value else [] }

  lemma PrepareIs(b0: Byte, b1: Byte, size: bv64, key: Option<Key>)
    requires GetMasked(b1) == key.Some? && GetBasicSize(b1) == BasicSize(size)
    ensures PrepareHeader(b0, b1, Extended(size, key)) == [b0, b1] + (SizeBytes(size) + KeyBytes(key))
  {
    KeyOffset(b1, size);
    var used := SizeBytes(size) + KeyBytes(key);
    assert Extended(size, key)[..|used|] == used;
  }

  lemma EncodeIs(h: Header)
    requires h.opcode <= 0xF
    ensures Encode(h) == [B0(h), B1(h)] + (SizeBytes(h.size) + KeyBytes(h.key))
  {
    SecondByteRoundTrip(h.size, h.key.Some?);
    PrepareIs(B0(h), B1(h), h.size, h.key);
  }

  /** Decoding a stream made of two bytes, a length field, a key and a payload. */
  lemma DecodeParts(b0: Byte, b1: Byte, sizeBytes: seq<Byte>, key: Option<Key>, payload: seq<Byte>)
    requires SizeFieldLength(b1 % 128) == |sizeBytes| && (b1 >= 128) == key.Some?
    ensures Decode([b0, b1] + (sizeBytes + KeyBytes(key)) + payload)
         == Some((DecodeFlags(b0, DecodeSize(b1 % 128, sizeBytes + (KeyBytes(key) + payload)), key),
                  2 + |sizeBytes| + |KeyBytes(key)|))
  {
    var n := |sizeBytes|;
    var wire := [b0, b1] + (sizeBytes + KeyBytes(key)) + payload;
    assert wire[2..] == sizeBytes + (KeyBytes(key) + payload);
    if key.Some? { assert wire[2 + n..2 + n + 4] == key.value; }
  }

  lemma DecodeFields(b0: Byte, b1: Byte, size: bv64, key: Option<Key>, payload: seq<Byte>)
    requires b1 % 128 == BasicSize(size) && (b1 >= 128) == key.Some?
    ensures Decode([b0, b1] + (SizeBytes(size) + KeyBytes(key)) + payload)
         == Some((DecodeFlags(b0, size, key), 2 + |SizeBytes(size)| + |KeyBytes(key)|))
  {
    DecodeSizeIs(size, KeyBytes(key) + payload);
    DecodeParts(b0, b1, SizeBytes(size), key, payload);
  }

  /** What is written on the wire in front of any payload decodes to the header that was encoded, and to nothing more. */
  lemma WireRoundTrip(h: Header, payload: seq<Byte>)
    requires h.opcode <= 0xF
    ensures Decode(Encode(h) + payload) == Some((h, |Encode(h)|))
  {
    EncodeIs(h);
    SecondByteView(h.size, h.key.Some?);
    FirstByteView(h.opcode, h.fin, h.rsv1, h.rsv2, h.rsv3, h.size, h.key);
    DecodeFields(B0(h), B1(h), h.size, h.key, payload);
  }

  /** The length field is the shortest of the three forms that holds the size. */
  lemma ShortestForm(h: Header)
    requires h.opcode <= 0xF
    ensures |Encode(h)| == 2 + (if h.key.Some? then 4 else 0)
      + if h.size < 126 then 0 else if h.size < 0x1_0000 then 2 else 8
  {
    EncodeIs(h);
  }
}
