/** WebSocket frame headers: the two writers and the two parsers of the
    library, and the format of section 5.2 of RFC 6455 they share. Bit fields
    of an octet are written as quotients and remainders. */
module WsHeader {
  import opened Bytes

  type OpCode = x: int | 0 <= x < 16
  const CONTINUATION: OpCode := 0
  const TEXT_FRAME: OpCode := 1
  const BINARY_FRAME: OpCode := 2
  const CLOSE: OpCode := 8

  /** Values of a 64-bit length field. */
  type Length = x: int | 0 <= x < 0x1_0000_0000_0000_0000

  predicate ValidOpCode(op: OpCode) {
    op <= 2 || 8 <= op <= 10
  }

  datatype Header = Header(fin: bool, opCode: OpCode, mask: bool, payloadLength: Length,
                           key: MaskKey, headerSize: nat)

  // ---------------------------------------------------------------- format

  function Size(useMask: bool, length: Length): nat {
    2 + (if length >= 126 then 2 else 0) + (if length >= 65536 then 6 else 0) + (if useMask then 4 else 0)
  }

  /** Octet `k` of `n`, counted from the least significant: `(n >> 8k) & 0xff`. */
  function Octet(n: nat, k: nat): byte {
    if k == 0 then n % 256 else Octet(n / 256, k - 1)
  }

  function BigEndian(n: nat, width: nat): (s: seq<byte>)
    ensures |s| == width
    ensures forall i :: 0 <= i < width ==> s[i] == Octet(n, width - 1 - i)
  {
    if width == 0 then [] else BigEndian(n / 256, width - 1) + [n % 256]
  }

  function MaskBit(useMask: bool): byte {
    if useMask then 0x80 else 0
  }

  function LengthField(useMask: bool, length: Length): seq<byte> {
    if length < 126 then [length + MaskBit(useMask)]
    else if length < 65536 then [126 + MaskBit(useMask)] + BigEndian(length, 2)
    else [127 + MaskBit(useMask)] + BigEndian(length, 8)
  }

  /** The header of a final frame. */
  function Encoded(op: OpCode, useMask: bool, key: MaskKey, length: Length): (s: seq<byte>)
    ensures |s| == Size(useMask, length)
  {
    [0x80 + op] + LengthField(useMask, length) + (if useMask then key.Octets() else [])
  }

  // --------------------------------------------------------------- writers

  /** The writer used over QUIC. It refuses buffers under 12 octets outright
      and reports -1 for a header that does not fit. */
  method WsWriteHeader(op: OpCode, useMask: bool, key: MaskKey, length: Length, buffer: array<byte>)
    returns (n: int)
    requires buffer.Length >= 12
    modifies buffer
    ensures n == if Size(useMask, length) > buffer.Length then -1 else Size(useMask, length)
    ensures n == -1 ==> buffer[..] == old(buffer[..])
    ensures n >= 0 ==> buffer[..] == Encoded(op, useMask, key, length) + old(buffer[n..])
  {
    var size := Size(useMask, length);
    if size > buffer.Length { return -1; }
    buffer[0] := 0x80 + op;
    if length < 126 {
      buffer[1] := length + MaskBit(useMask);
      assert buffer[..2] == [0x80 + op] + LengthField(useMask, length);
      WriteIfMasked(buffer, 2, useMask, key);
    } else if length < 65536 {
      buffer[1] := 126 + MaskBit(useMask);
      WriteLength16(buffer, length);
      assert buffer[..4] == [0x80 + op] + LengthField(useMask, length);
      WriteIfMasked(buffer, 4, useMask, key);
    } else {
      buffer[1] := 127 + MaskBit(useMask);
      WriteLength64(buffer, length);
      assert buffer[..10] == [0x80 + op] + LengthField(useMask, length);
      WriteIfMasked(buffer, 10, useMask, key);
    }
    n := size;
  }

  method WriteLength16(buffer: array<byte>, length: nat)
    requires buffer.Length >= 4
    modifies buffer
    ensures buffer[..] == old(buffer[..2]) + BigEndian(length, 2) + old(buffer[4..])
  {
    buffer[2], buffer[3] := Octet(length, 1), Octet(length, 0);
  }

  method WriteLength64(buffer: array<byte>, length: nat)
    requires buffer.Length >= 10
    modifies buffer
    ensures buffer[..] == old(buffer[..2]) + BigEndian(length, 8) + old(buffer[10..])
  {
    buffer[2], buffer[3], buffer[4], buffer[5] :=
      Octet(length, 7), Octet(length, 6), Octet(length, 5), Octet(length, 4);
    buffer[6], buffer[7], buffer[8], buffer[9] :=
      Octet(length, 3), Octet(length, 2), Octet(length, 1), Octet(length, 0);
  }

  function Power(k: nat): (r: nat)
    ensures r > 0
  {
    if k == 0 then 1 else 256 * Power(k - 1)
  }

  /** Shifting by eight bits and then by more is one shift. */
  lemma ShiftTwice(n: nat, d: nat)
    requires d > 0
    ensures n / 256 / d == n / (256 * d)
  {
    var m, x := n / 256, n % 256;
    var q, r := m / d, m % d;
    assert m == q * d + r;
    assert q * (256 * d) == q * d * 256;
    Quotient(n, 256 * d, q, r * 256 + x);
  }

  /** Octet `k` is what shifting by `8k` bits and masking gives. */
  lemma {:induction false} OctetShifted(n: nat, k: nat)
    ensures Octet(n, k) == n / Power(k) % 256
  {
    if k > 0 {
      OctetShifted(n / 256, k - 1);
      ShiftTwice(n, Power(k - 1));
    }
  }

  lemma Powers()
    ensures Power(1) == 0x100 && Power(2) == 0x1_0000 && Power(3) == 0x100_0000 && Power(4) == 0x1_0000_0000
    ensures Power(5) == 0x100_0000_0000 && Power(6) == 0x1_0000_0000_0000 && Power(7) == 0x100_0000_0000_0000
  {}

  /** The length as the TCP writer puts it, shift by shift. */
  method PrepareLength16(header: array<byte>, length: nat)
    requires header.Length >= 4
    modifies header
    ensures header[..] == old(header[..2]) + BigEndian(length, 2) + old(header[4..])
  {
    OctetShifted(length, 1);
    header[2] := length / 0x100 % 256;
    header[3] := length % 256;
  }

  method PrepareLength64(header: array<byte>, length: nat)
    requires header.Length >= 10
    modifies header
    ensures header[..] == old(header[..2]) + BigEndian(length, 8) + old(header[10..])
  {
    var b2, b3 := length / 0x100_0000_0000_0000 % 256, length / 0x1_0000_0000_0000 % 256;
    var b4, b5 := length / 0x100_0000_0000 % 256, length / 0x1_0000_0000 % 256;
    var b6, b7 := length / 0x100_0000 % 256, length / 0x1_0000 % 256;
    var b8, b9 := length / 0x100 % 256, length % 256;
    Powers();
    forall k: nat ensures Octet(length, k) == length / Power(k) % 256 {
      OctetShifted(length, k);
    }
    assert [b2, b3, b4, b5, b6, b7, b8, b9] == BigEndian(length, 8);
    Put8(header, b2, b3, b4, b5, b6, b7, b8, b9);
  }

  method Put8(header: array<byte>, b2: byte, b3: byte, b4: byte, b5: byte, b6: byte, b7: byte, b8: byte, b9: byte)
    requires header.Length >= 10
    modifies header
    ensures header[..] == old(header[..2]) + [b2, b3, b4, b5, b6, b7, b8, b9] + old(header[10..])
  {
    header[2], header[3], header[4], header[5] := b2, b3, b4, b5;
    header[6], header[7], header[8], header[9] := b6, b7, b8, b9;
  }

  method WriteMaskingKey(buffer: array<byte>, at: nat, key: MaskKey)
    requires at + 4 <= buffer.Length
    modifies buffer
    ensures buffer[..] == old(buffer[..at]) + key.Octets() + old(buffer[at + 4..])
  {
    buffer[at], buffer[at + 1] := key.k0, key.k1;
    buffer[at + 2], buffer[at + 3] := key.k2, key.k3;
  }

  method Clear(data: array<byte>, n: nat)
    requires n <= data.Length
    modifies data
    ensures data[n..] == old(data[n..])
    ensures forall i :: 0 <= i < n ==> data[i] == 0
  {
    for i := 0 to n
      invariant data[n..] == old(data[n..])
      invariant forall j :: 0 <= j < i ==> data[j] == 0
    {
      data[i] := 0;
    }
  }

  /** The writer used over TCP: it clears the header area first. */
  method WsPrepare(op: OpCode, useMask: bool, key: MaskKey, length: Length, data: array<byte>)
    returns (n: int)
    modifies data
    ensures n == if Size(useMask, length) > data.Length then -1 else Size(useMask, length)
    ensures n == -1 ==> data[..] == old(data[..])
    ensures n >= 0 ==> data[..] == Encoded(op, useMask, key, length) + old(data[n..])
  {
    var size := Size(useMask, length);
    if size > data.Length { return -1; }
    Clear(data, size);
    data[0] := 0x80 + op;
    if length < 126 {
      data[1] := length + MaskBit(useMask);
      assert data[..2] == [0x80 + op] + LengthField(useMask, length);
      WriteIfMasked(data, 2, useMask, key);
    } else if length < 65536 {
      data[1] := 126 + MaskBit(useMask);
      PrepareLength16(data, length);
      assert data[..4] == [0x80 + op] + LengthField(useMask, length);
      WriteIfMasked(data, 4, useMask, key);
    } else {
      data[1] := 127 + MaskBit(useMask);
      PrepareLength64(data, length);
      assert data[..10] == [0x80 + op] + LengthField(useMask, length);
      WriteIfMasked(data, 10, useMask, key);
    }
    n := size;
  }

  method WriteIfMasked(data: array<byte>, at: nat, useMask: bool, key: MaskKey)
    requires at + (if useMask then 4 else 0) <= data.Length
    modifies data
    ensures data[..] == old(data[..at]) + (if useMask then key.Octets() else []) + old(data[at + (if useMask then 4 else 0)..])
  {
    if useMask { WriteMaskingKey(data, at, key); }
  }

  // --------------------------------------------------------------- parsers

  /** Size of the header that starts with these two octets. */
  function DeclaredSize(second: byte): (n: nat)
    ensures n in {2, 4, 6, 8, 10, 14}
  {
    2 + (if second % 128 == 126 then 2 else 0) + (if second % 128 == 127 then 8 else 0)
      + (if second >= 128 then 4 else 0)
  }

  function Number(s: seq<byte>): nat {
    if s == [] then 0 else Number(s[..|s| - 1]) * 256 + s[|s| - 1]
  }

  lemma {:induction false} NumberBound(s: seq<byte>)
    ensures Number(s) < Weight(|s|)
  {
    if s != [] {
      NumberBound(s[..|s| - 1]);
    }
  }

  function Weight(width: nat): nat {
    if width == 0 then 1 else 256 * Weight(width - 1)
  }

  lemma {:induction false} NumberOfBigEndian(n: nat, width: nat)
    requires n < Weight(width)
    ensures Number(BigEndian(n, width)) == n
  {
    if width > 0 {
      var s := BigEndian(n, width);
      assert s[..width - 1] == BigEndian(n / 256, width - 1);
      NumberOfBigEndian(n / 256, width - 1);
    }
  }

  function PayloadLength(data: seq<byte>): Length
    requires |data| >= 2 && |data| >= DeclaredSize(data[1])
  {
    var length7 := data[1] % 128;
    assert Weight(2) == 65536 && Weight(8) == 0x1_0000_0000_0000_0000;
    NumberBound(data[2..DeclaredSize(data[1]) - if data[1] >= 128 then 4 else 0]);
    if length7 < 126 then length7
    else if length7 == 126 then Number(data[2..4])
    else Number(data[2..10])
  }

  function KeyAt(data: seq<byte>, i: nat): MaskKey
    requires i + 4 <= |data|
  {
    MaskKey(data[i], data[i + 1], data[i + 2], data[i + 3])
  }

  datatype ParseStatus = NotEnoughData | Invalid | Parsed(header: Header)

  /** The parser used over QUIC. */
  function WsParseHeader(data: seq<byte>): (r: ParseStatus)
    ensures r.Parsed? ==> 2 <= r.header.headerSize <= |data|
  {
    if |data| < 2 then NotEnoughData
    else if |data| < DeclaredSize(data[1]) then NotEnoughData
    else if (data[0] / 16) % 8 != 0 || !ValidOpCode(data[0] % 16) then Invalid
    else
      var size := DeclaredSize(data[1]);
      var mask := data[1] >= 128;
      Parsed(Header(data[0] >= 128, data[0] % 16, mask, PayloadLength(data),
                    if mask then KeyAt(data, size - 4) else ZERO_KEY, size))
  }

  datatype ThrownParse = Parse(header: Header) | HeaderTooSmall | ReservedNotZero | OpCodeInvalid

  /** The parser used over TCP, which throws instead of reporting a status.
      It accepts the same headers as the other one and fills in the same fields. */
  method WsParse(data: seq<byte>) returns (r: ThrownParse)
    ensures WsParseHeader(data).NotEnoughData? <==> r == HeaderTooSmall
    ensures WsParseHeader(data).Invalid? <==> r == ReservedNotZero || r == OpCodeInvalid
    ensures r.Parse? ==> WsParseHeader(data) == Parsed(r.header)
  {
    if |data| < 2 { return HeaderTooSmall; }
    var fin := data[0] >= 128;
    var rsv := (data[0] / 16) % 8;
    var opcode := data[0] % 16;
    var mask := data[1] >= 128;
    var n0 := data[1] % 128;
    var size := 2 + (if n0 == 126 then 2 else 0) + (if n0 == 127 then 8 else 0) + (if mask then 4 else 0);
    if |data| < size { return HeaderTooSmall; }
    if rsv != 0 { return ReservedNotZero; }
    if opcode > 10 || 2 < opcode < 8 { return OpCodeInvalid; }
    var n, i := ParseLength(data, n0);
    var key := if mask then MaskKey(data[i], data[i + 1], data[i + 2], data[i + 3]) else ZERO_KEY;
    r := Parse(Header(fin, opcode, mask, n, key, size));
  }

  /** The length as the TCP parser puts it together, shift by shift. */
  method ParseLength(data: seq<byte>, n0: byte) returns (n: Length, i: nat)
    requires |data| >= 2 && |data| >= DeclaredSize(data[1]) && n0 == data[1] % 128
    ensures n == PayloadLength(data) && i == if n0 < 126 then 2 else if n0 == 126 then 4 else 10
  {
    if n0 < 126 {
      n, i := n0, 2;
    } else if n0 == 126 {
      n, i := 0x100 * (data[2] as int) + data[3], 4;
      Number2(data[2..4]);
    } else {
      Number8(data[2..10]);
      n := 0x100_0000_0000_0000 * (data[2] as int) + 0x1_0000_0000_0000 * (data[3] as int) + 0x100_0000_0000 * (data[4] as int)
           + 0x1_0000_0000 * (data[5] as int) + 0x100_0000 * (data[6] as int) + 0x1_0000 * (data[7] as int) + 0x100 * (data[8] as int) + data[9];
      i := 10;
    }
  }

  lemma NumberSnoc(s: seq<byte>, b: byte)
    ensures Number(s + [b]) == Number(s) * 256 + b
  {
    assert (s + [b])[..|s|] == s;
  }

  lemma Number2(s: seq<byte>)
    requires |s| == 2
    ensures Number(s) == 0x100 * (s[0] as int) + s[1]
  {
    NumberSnoc([], s[0]);
    NumberSnoc([s[0]], s[1]);
    assert s == [s[0]] + [s[1]] && [] + [s[0]] == [s[0]];
  }

  lemma Number4(s: seq<byte>)
    requires |s| == 4
    ensures Number(s) == 0x100_0000 * (s[0] as int) + 0x1_0000 * (s[1] as int) + 0x100 * (s[2] as int) + s[3]
  {
    Number2(s[..2]);
    NumberSnoc(s[..2], s[2]);
    NumberSnoc(s[..3], s[3]);
    assert s[..3] == s[..2] + [s[2]] && s == s[..3] + [s[3]];
  }

  lemma Number8(s: seq<byte>)
    requires |s| == 8
    ensures Number(s) ==
            0x100_0000_0000_0000 * (s[0] as int) + 0x1_0000_0000_0000 * (s[1] as int) + 0x100_0000_0000 * (s[2] as int)
            + 0x1_0000_0000 * (s[3] as int) + 0x100_0000 * (s[4] as int) + 0x1_0000 * (s[5] as int) + 0x100 * (s[6] as int) + s[7]
  {
    Number4(s[..4]);
    NumberSnoc(s[..4], s[4]);
    NumberSnoc(s[..5], s[5]);
    NumberSnoc(s[..6], s[6]);
    NumberSnoc(s[..7], s[7]);
    assert s[..5] == s[..4] + [s[4]] && s[..6] == s[..5] + [s[5]];
    assert s[..7] == s[..6] + [s[6]] && s == s[..7] + [s[7]];
  }

  // ------------------------------------------------------------ properties

  lemma EncodedLength(op: OpCode, useMask: bool, key: MaskKey, length: Length, tail: seq<byte>)
    ensures var s := Encoded(op, useMask, key, length) + tail;
            && DeclaredSize(s[1]) == Size(useMask, length)
            && PayloadLength(s) == length
  {
    var s := Encoded(op, useMask, key, length) + tail;
    assert Weight(2) == 65536 && Weight(8) == 0x1_0000_0000_0000_0000;
    if 126 <= length < 65536 {
      NumberOfBigEndian(length, 2);
      assert s[2..4] == BigEndian(length, 2);
    } else if 65536 <= length {
      NumberOfBigEndian(length, 8);
      assert s[2..10] == BigEndian(length, 8);
    }
  }

  /** A number of eight octets, most significant first. */
  function Number64(b: seq<byte>): nat
    requires |b| == 8
  {
    0x100_0000_0000_0000 * (b[0] as int) + 0x1_0000_0000_0000 * (b[1] as int) + 0x100_0000_0000 * (b[2] as int)
    + 0x1_0000_0000 * (b[3] as int) + 0x100_0000 * (b[4] as int) + 0x1_0000 * (b[5] as int) + 0x100 * (b[6] as int) + b[7]
  }

  /** What is on the wire, field by field as section 5.2 of RFC 6455 lays it out. */
  lemma {:induction false} WireFormat(op: OpCode, useMask: bool, key: MaskKey, length: Length)
    ensures var s := Encoded(op, useMask, key, length);
            && |s| >= 2 && s[0] == 128 + op && s[1] / 128 == (if useMask then 1 else 0)
            && (length <= 125 ==> s[1] % 128 == length && |s| == if useMask then 6 else 2)
            && (126 <= length <= 65535 ==>
                  |s| == (if useMask then 8 else 4) && s[1] % 128 == 126 && 256 * (s[2] as int) + s[3] == length)
            && (65536 <= length ==>
                  |s| == (if useMask then 14 else 10) && s[1] % 128 == 127 && Number64(s[2..10]) == length)
            && (useMask ==> s[|s| - 4..] == [key.k0, key.k1, key.k2, key.k3])
  {
    var s := Encoded(op, useMask, key, length);
    assert Weight(2) == 65536 && Weight(8) == 0x1_0000_0000_0000_0000;
    if 126 <= length < 65536 {
      NumberOfBigEndian(length, 2);
      Number2(s[2..4]);
      assert s[2..4] == BigEndian(length, 2);
    } else if 65536 <= length {
      NumberOfBigEndian(length, 8);
      Number8(s[2..10]);
      assert s[2..10] == BigEndian(length, 8);
    }
  }

  /** What any octets are read as: reserved bits and opcodes outside the six defined ones
      are refused, and every field is that of section 5.2. */
  lemma {:induction false} ReadFormat(data: seq<byte>)
    requires |data| >= 14
    ensures var (b0, b1, r) := (data[0], data[1], WsParseHeader(data));
            && (r.Parsed? <==> b0 % 128 < 16 && b0 % 16 in {0, 1, 2, 8, 9, 10}) && !r.NotEnoughData?
            && (r.Parsed? ==>
                  && (r.header.fin <==> b0 >= 128) && r.header.opCode == b0 % 16 && (r.header.mask <==> b1 >= 128)
                  && (b1 % 128 <= 125 ==> r.header.payloadLength == b1 % 128)
                  && (b1 % 128 == 126 ==> r.header.payloadLength == 256 * (data[2] as int) + data[3])
                  && (b1 % 128 == 127 ==> r.header.payloadLength == Number64(data[2..10]))
                  && r.header.headerSize == (if b1 % 128 <= 125 then 2 else if b1 % 128 == 126 then 4 else 10)
                                            + (if b1 >= 128 then 4 else 0)
                  && (b1 >= 128 ==> r.header.key.Octets() == data[r.header.headerSize - 4..r.header.headerSize]))
  {
    Number2(data[2..4]);
    Number8(data[2..10]);
  }

  /** Parsing a written header gives back everything that was written,
      whatever octets follow it. */
  lemma ParseEncoded(op: OpCode, useMask: bool, key: MaskKey, length: Length, tail: seq<byte>)
    requires ValidOpCode(op)
    ensures WsParseHeader(Encoded(op, useMask, key, length) + tail)
         == Parsed(Header(true, op, useMask, length, if useMask then key else ZERO_KEY, Size(useMask, length)))
  {
    EncodedLength(op, useMask, key, length, tail);
  }

  /** No proper prefix of a written header can be taken for a header. */
  lemma {:induction false} PrefixNotEnough(op: OpCode, useMask: bool, key: MaskKey, length: Length, n: nat)
    requires n < Size(useMask, length)
    ensures WsParseHeader(Encoded(op, useMask, key, length)[..n]) == NotEnoughData
  {
    EncodedLength(op, useMask, key, length, []);
    assert Encoded(op, useMask, key, length) + [] == Encoded(op, useMask, key, length);
  }

  /** A header that parses is never shorter than the one written for its
      length, so the writers always choose the shortest form. */
  lemma ShortestForm(data: seq<byte>)
    requires WsParseHeader(data).Parsed?
    ensures var h := WsParseHeader(data).header;
            Size(h.mask, h.payloadLength) <= h.headerSize
  {
    assert Weight(2) == 65536;
    if data[1] % 128 == 126 {
      NumberBound(data[2..4]);
    }
  }

  /** Once a header has parsed, more octets do not change the result. */
  lemma TrailingIgnored(data: seq<byte>, tail: seq<byte>)
    requires !WsParseHeader(data).NotEnoughData?
    ensures WsParseHeader(data + tail) == WsParseHeader(data)
  {
    assert |data| >= 4 ==> (data + tail)[2..4] == data[2..4];
    assert |data| >= 10 ==> (data + tail)[2..10] == data[2..10];
  }

  /** The result depends on the declared number of octets only. */
  lemma HeaderOnly(data: seq<byte>, n: nat)
    requires |data| >= 2 && DeclaredSize(data[1]) <= n <= |data|
    ensures WsParseHeader(data[..n]) == WsParseHeader(data)
  {
    TrailingIgnored(data[..n], data[n..]);
    assert data[..n] + data[n..] == data;
  }
}
